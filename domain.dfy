/** Shared types of the short-link service: the persisted record, the error kinds
    and the optional values every storage call returns. */
module Domain {

  /** Go's `int64`, the type of the creation timestamp. */
  type int64 = x: int | -0x8000_0000_0000_0000 <= x < 0x8000_0000_0000_0000

  /** A Go `error` that may be nil. */
  datatype Option<+T> = None | Some(value: T)

  /** The error values the core compares with `==`. The first four are the sentinels of
      the domain package; `InvalidShort` is the sentinel the service and both converters
      use; `Other` stands for every foreign error (database, transaction, scan, commit),
      which Go compares by identity and therefore never equals a sentinel. */
  datatype Error =
    | InvalidLink
    | InvalidDecode
    | LinkNotFound
    | GenerateTimeout
    | InvalidShort
    | Other(msg: string)
  {
    /** The text `err.Error()` yields: a foreign error keeps its own message, and no
        sentinel has an empty one. */
    function Text(): (t: string)
      ensures Other? ==> t == msg
      ensures !Other? ==> t != ""
    {
      match this
      case InvalidLink => "invalid link"
      case InvalidDecode => "link cant decode"
      case LinkNotFound => "link not found"
      case GenerateTimeout => "generate short link timeout"
      case InvalidShort => InvalidShortText
      case Other(msg) => msg
    }
  }

  /** The text of `ErrorInvalidShort`, whose declaration is not part of this model. */
  const InvalidShortText: string := "invalid short link"

  /** The five sentinels have five different texts, so a reply's message names its error. */
  lemma SentinelTextsDistinct(a: Error, b: Error)
    requires !a.Other? && !b.Other? && a != b
    ensures a.Text() != b.Text()
  {
    assert "invalid link"[0] == 'i' && "link cant decode"[0] == 'l';
    assert "link not found"[5] == 'n' && "link cant decode"[5] == 'c';
  }

  /** The original link and the Unix second it was added at. */
  datatype URLLong = URLLong(longURL: string, addedAt: int64)

  /** The zero `URLLong{}` that failing lookups return. */
  const EmptyLong: URLLong := URLLong("", 0)

  /** A record: the short code with its embedded `URLLong`. */
  datatype URLData = URLData(urlShort: string, urlLong: URLLong)

  /** `NewURLData`: the record for a code, the link it stands for and the second it was added at. */
  function NewURLData(short: string, long: string, addedAt: int64): (d: URLData)
    ensures d.urlShort == short && d.urlLong.longURL == long && d.urlLong.addedAt == addedAt
  {
    URLData(short, URLLong(long, addedAt))
  }

  /** Number of bytes of the UTF-8 encoding of one character. */
  function Utf8Width(c: char): nat {
    if c as int < 0x80 then 1
    else if c as int < 0x800 then 2
    else if c as int < 0x1_0000 then 3
    else 4
  }

  /** Go's `len(s)`: the length of the UTF-8 encoding of `s`, in bytes. */
  function Utf8Len(s: string): (n: nat)
    ensures n >= |s|
    ensures (forall c :: c in s ==> c as int < 0x80) ==> n == |s|
  {
    if s == [] then 0
    else
      assert s[0] in s && forall c :: c in s[1..] ==> c in s;
      Utf8Width(s[0]) + Utf8Len(s[1..])
  }
}
