/** The storage the service talks to (`IUrlStorage`): either backend, or a test double.
    It is modelled as a map of entries plus the faults the storage reports: `failing`
    gives, per code, the error a lookup of that code returns instead of consulting the
    entries, and `addFault` is the error every `AddUrl` returns (when it is `None`, adds
    succeed and are written). Every call the service makes is appended to `log`. */
module StoragePort {
  import opened Domain
  import InMemory

  /** One call through the storage interface. */
  datatype Call = Lookup(code: string) | Add(data: URLData)

  /** The answer a lookup of `code` gets. */
  function Reply(entries: map<string, URLLong>, failing: map<string, Error>, code: string)
    : (r: (URLLong, Option<Error>))
    ensures r.1 == None ==> code !in failing && code in entries && r.0 == entries[code]
    ensures r.1 != None ==> r.0 == EmptyLong
    ensures code !in failing && code !in entries ==> r.1 == Some(LinkNotFound)
    ensures code !in failing && code in entries ==> r == (entries[code], None)
    ensures code in failing ==> r == (EmptyLong, Some(failing[code]))
  {
    if code in failing then (EmptyLong, Some(failing[code]))
    else InMemory.Find(entries, code)
  }

  class Store {
    var entries: map<string, URLLong>
    const failing: map<string, Error>
    const addFault: Option<Error>
    var log: seq<Call>

    constructor (entries: map<string, URLLong>, failing: map<string, Error>, addFault: Option<Error>)
      ensures this.entries == entries && this.failing == failing && this.addFault == addFault
      ensures log == []
    {
      this.entries := entries;
      this.failing := failing;
      this.addFault := addFault;
      log := [];
    }

    /** `GetUrl`: answers from the entries or the scripted fault; the entries do not change. */
    method GetUrl(shortUrl: string) returns (longUrl: URLLong, err: Option<Error>)
      modifies this
      ensures (longUrl, err) == Reply(entries, failing, shortUrl)
      ensures entries == old(entries)
      ensures log == old(log) + [Lookup(shortUrl)]
    {
      log := log + [Lookup(shortUrl)];
      if shortUrl in failing {
        return EmptyLong, Some(failing[shortUrl]);
      }
      if shortUrl !in entries {
        return EmptyLong, Some(LinkNotFound);
      }
      longUrl, err := entries[shortUrl], None;
    }

    /** `AddUrl`: returns the scripted fault; only a successful add writes the entry. */
    method AddUrl(urlData: URLData) returns (err: Option<Error>)
      modifies this
      ensures err == addFault
      ensures entries == if addFault == None then old(entries)[urlData.urlShort := urlData.urlLong]
                         else old(entries)
      ensures log == old(log) + [Add(urlData)]
    {
      log := log + [Add(urlData)];
      err := addFault;
      if err == None {
        entries := entries[urlData.urlShort := urlData.urlLong];
      }
    }
  }

  /** A store that reports no lookup faults answers exactly like the in-memory backend. */
  lemma FaultFreeIsInMemory(entries: map<string, URLLong>, code: string)
    ensures Reply(entries, map[], code) == InMemory.Find(entries, code)
  {
  }
}
