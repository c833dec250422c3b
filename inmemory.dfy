/** The in-memory storage backend: a map from short code to `URLLong`. The read/write
    lock that guards it is left out of this sequential model. */
module InMemory {
  import opened Domain

  /** What a lookup in the map returns: the stored value, or the zero value with
      `ErrorLinkNotFound`. */
  function Find(storage: map<string, URLLong>, code: string): (URLLong, Option<Error>) {
    if code in storage then (storage[code], None) else (EmptyLong, Some(LinkNotFound))
  }

  class UrlStorage {
    var storage: map<string, URLLong>

    /** `NewUrlStorage`: an empty map. */
    constructor ()
      ensures storage == map[]
    {
      storage := map[];
    }

    /** Writes the entry unconditionally (an existing code is overwritten) and never fails. */
    method AddUrl(urlData: URLData) returns (err: Option<Error>)
      modifies this
      ensures err == None
      ensures storage == old(storage)[urlData.urlShort := urlData.urlLong]
    {
      storage := storage[urlData.urlShort := urlData.urlLong];
      err := None;
    }

    /** Reads the map and changes nothing. */
    method GetUrl(shortUrl: string) returns (longUrl: URLLong, err: Option<Error>)
      ensures shortUrl in storage ==> longUrl == storage[shortUrl] && err == None
      ensures shortUrl !in storage ==> longUrl == EmptyLong && err == Some(LinkNotFound)
      ensures (longUrl, err) == Find(storage, shortUrl)
    {
      if shortUrl !in storage {
        return EmptyLong, Some(LinkNotFound);
      }
      longUrl := storage[shortUrl];
      err := None;
    }
  }

  // ---------------------------------------------------------------------------
  // Laws of the map the methods maintain

  /** After adding a record, looking its code up returns the record's `URLLong`. */
  lemma AddThenFind(storage: map<string, URLLong>, d: URLData)
    ensures Find(storage[d.urlShort := d.urlLong], d.urlShort) == (d.urlLong, None)
  {
  }

  /** Adding a record leaves every other code's lookup as it was. */
  lemma AddKeepsOthers(storage: map<string, URLLong>, d: URLData, code: string)
    requires code != d.urlShort
    ensures Find(storage[d.urlShort := d.urlLong], code) == Find(storage, code)
  {
  }

  /** Two writes to the same code: the last one wins. */
  lemma LastWriteWins(storage: map<string, URLLong>, d1: URLData, d2: URLData)
    requires d1.urlShort == d2.urlShort
    ensures storage[d1.urlShort := d1.urlLong][d2.urlShort := d2.urlLong] == storage[d2.urlShort := d2.urlLong]
  {
  }

  /** A client run: construct, add, read back, read an absent code. */
  method AddThenGet(d: URLData, other: string) returns (found: URLLong, foundErr: Option<Error>,
                                                         missing: URLLong, missingErr: Option<Error>)
    requires other != d.urlShort
    ensures found == d.urlLong && foundErr == None
    ensures missing == EmptyLong && missingErr == Some(LinkNotFound)
  {
    var s := new UrlStorage();
    var addErr := s.AddUrl(d);
    found, foundErr := s.GetUrl(d.urlShort);
    missing, missingErr := s.GetUrl(other);
  }
}
