/** The coordination service. `CreateUrl` validates the link, then draws candidate codes
    until one is both non-empty and unknown to the storage, and stores it; a 3-second
    timer bounds the search. `GetUrl` guards the code's byte length and passes the
    storage's answer through.

    The timer and the generator are one oracle: `gen` is the sequence of
    `GenerateShortLink()` results the loop would obtain before the timer fires, so the
    timer is found expired at the loop's `|gen|`-th check and never before. */
module Service {
  import opened Domain
  import Validator
  import Generator
  import opened StoragePort

  /** `GetUrl` rejects codes whose UTF-8 encoding is longer than this many bytes. */
  const MaxShortBytes: nat := 10

  /** One `GenerateShortLink()` result: a code and the Unix second it was made at. */
  datatype Candidate = Candidate(short: string, now: int64)

  /** What one iteration of the loop does with a candidate: leave the loop to store it,
      draw again, or return the error. */
  datatype Step = Claim | Retry | Abort(e: Error)

  /** The iteration's decision from the code and the lookup's error: only a not-found
      answer assigns `urldata`, and only a non-empty code ends the loop; a collision
      (no error) keeps looping; any other error ends the call. */
  function Classify(short: string, err: Option<Error>): Step {
    if err == Some(LinkNotFound) then (if short != "" then Claim else Retry)
    else if err.Some? then Abort(err.value)
    else Retry
  }

  /** The decision at iteration `k`, given what the storage holds. */
  function StepAt(gen: seq<Candidate>, entries: map<string, URLLong>, failing: map<string, Error>, k: nat): Step
    requires k < |gen|
  {
    Classify(gen[k].short, Reply(entries, failing, gen[k].short).1)
  }

  /** How the loop ends: at the candidate it claims, at the error it returns, or on the timer. */
  datatype Outcome = Found(i: nat) | Failed(i: nat, e: Error) | TimedOut

  /** The loop run from iteration `from`: it ends at the first iteration that does not
      retry, or on the timer when every remaining one retries. */
  function Scan(gen: seq<Candidate>, entries: map<string, URLLong>, failing: map<string, Error>, from: nat)
    : (o: Outcome)
    requires from <= |gen|
    decreases |gen| - from
    ensures o.Found? ==> from <= o.i < |gen| && StepAt(gen, entries, failing, o.i) == Claim
    ensures o.Failed? ==> from <= o.i < |gen| && StepAt(gen, entries, failing, o.i) == Abort(o.e)
    ensures !o.TimedOut? ==> forall k :: from <= k < o.i ==> StepAt(gen, entries, failing, k) == Retry
    ensures o.TimedOut? <==> forall k :: from <= k < |gen| ==> StepAt(gen, entries, failing, k) == Retry
  {
    if from == |gen| then TimedOut
    else match StepAt(gen, entries, failing, from)
      case Claim => Found(from)
      case Abort(e) => Failed(from, e)
      case Retry => Scan(gen, entries, failing, from + 1)
  }

  /** The lookups of the first `n` candidates, in order. */
  function LookupsUpTo(gen: seq<Candidate>, n: nat): seq<Call>
    requires n <= |gen|
  {
    seq(n, k requires 0 <= k < n => Lookup(gen[k].short))
  }

  /** The pair `CreateUrl` returns. */
  function CreateReply(long: string, gen: seq<Candidate>, entries: map<string, URLLong>,
                       failing: map<string, Error>, addFault: Option<Error>): (string, Option<Error>)
  {
    if !Validator.CheckLink(long) then ("", Some(InvalidLink))
    else match Scan(gen, entries, failing, 0)
      case TimedOut => ("", Some(GenerateTimeout))
      case Failed(_, e) => ("", Some(e))
      case Found(i) => if addFault.Some? then ("", addFault) else (gen[i].short, None)
  }

  /** The storage calls `CreateUrl` makes. */
  function CreateCalls(long: string, gen: seq<Candidate>, entries: map<string, URLLong>,
                       failing: map<string, Error>): seq<Call>
  {
    if !Validator.CheckLink(long) then []
    else match Scan(gen, entries, failing, 0)
      case TimedOut => LookupsUpTo(gen, |gen|)
      case Failed(i, _) => LookupsUpTo(gen, i + 1)
      case Found(i) => LookupsUpTo(gen, i + 1) + [Add(NewURLData(gen[i].short, long, gen[i].now))]
  }

  /** The entries after `CreateUrl`: only a successful add writes one. */
  function CreateEntries(long: string, gen: seq<Candidate>, entries: map<string, URLLong>,
                         failing: map<string, Error>, addFault: Option<Error>): map<string, URLLong>
  {
    if !Validator.CheckLink(long) || addFault.Some? then entries
    else match Scan(gen, entries, failing, 0)
      case Found(i) => entries[gen[i].short := URLLong(long, gen[i].now)]
      case _ => entries
  }

  /** The pair `GetUrl` returns. */
  function GetReply(entries: map<string, URLLong>, failing: map<string, Error>, code: string)
    : (string, Option<Error>)
  {
    if Utf8Len(code) > MaxShortBytes then ("", Some(InvalidShort))
    else
      var (v, e) := Reply(entries, failing, code);
      if e.Some? then ("", e) else (v.longURL, None)
  }

  class UrlService {
    const db: Store

    /** `NewUrlService`: the generator is the `gen` argument of `CreateUrl`. */
    constructor (db: Store)
      ensures this.db == db
    {
      this.db := db;
    }

    method CreateUrl(long: string, gen: seq<Candidate>) returns (short: string, err: Option<Error>)
      modifies db
      ensures (short, err) == CreateReply(long, gen, old(db.entries), db.failing, db.addFault)
      ensures db.log == old(db.log) + CreateCalls(long, gen, old(db.entries), db.failing)
      ensures db.entries == CreateEntries(long, gen, old(db.entries), db.failing, db.addFault)
    {
      if !Validator.CheckLink(long) {
        return "", Some(InvalidLink);
      }
      CreateEnds(long, gen, db.entries, db.failing, db.addFault);
      var urldata;
      urldata, err := DrawCode(long, gen);
      if err.Some? {
        return "", err;
      }
      var addErr := db.AddUrl(urldata);
      if addErr.Some? {
        return "", addErr;
      }
      return urldata.urlShort, None;
    }

    /** The loop of `CreateUrl`: draw, look up, and stop at the first free non-empty code,
        at a lookup error, or on the timer. */
    method DrawCode(long: string, gen: seq<Candidate>) returns (urldata: URLData, err: Option<Error>)
      modifies db
      ensures db.entries == old(db.entries)
      ensures var o := Scan(gen, old(db.entries), db.failing, 0);
        match o
        case TimedOut => err == Some(GenerateTimeout) && db.log == old(db.log) + LookupsUpTo(gen, |gen|)
        case Failed(i, e) => err == Some(e) && db.log == old(db.log) + LookupsUpTo(gen, i + 1)
        case Found(i) => err == None && urldata == NewURLData(gen[i].short, long, gen[i].now)
                         && db.log == old(db.log) + LookupsUpTo(gen, i + 1)
    {
      ghost var entries0 := db.entries;
      ghost var log0 := db.log;
      urldata := URLData("", EmptyLong);
      var i := 0;
      while true
        invariant 0 <= i <= |gen|
        invariant db.entries == entries0
        invariant db.log == log0 + LookupsUpTo(gen, i)
        invariant urldata.urlShort == ""
        invariant Scan(gen, entries0, db.failing, 0) == Scan(gen, entries0, db.failing, i)
        decreases |gen| - i
      {
        if i == |gen| {
          // the timer has fired
          return urldata, Some(GenerateTimeout);
        }
        var candidate, now := gen[i].short, gen[i].now;
        var found, lookupErr := db.GetUrl(candidate);
        LookupsStep(gen, i);
        ScanStep(gen, entries0, db.failing, i);
        if lookupErr == Some(LinkNotFound) {
          urldata := NewURLData(candidate, long, now);
        } else if lookupErr.Some? {
          return urldata, lookupErr;
        }
        if urldata.urlShort != "" {
          break;
        }
        i := i + 1;
      }
      err := None;
    }

    method GetUrl(shortUrl: string) returns (long: string, err: Option<Error>)
      modifies db
      ensures (long, err) == GetReply(old(db.entries), db.failing, shortUrl)
      ensures db.entries == old(db.entries)
      ensures db.log == old(db.log) + (if Utf8Len(shortUrl) > MaxShortBytes then [] else [Lookup(shortUrl)])
    {
      if Utf8Len(shortUrl) > MaxShortBytes {
        return "", Some(InvalidShort);
      }
      var data, getErr := db.GetUrl(shortUrl);
      if getErr.Some? {
        return "", getErr;
      }
      return data.longURL, None;
    }
  }

  // ---------------------------------------------------------------------------
  // The search loop

  /** The three ways a call with a valid link ends. */
  lemma CreateEnds(long: string, gen: seq<Candidate>, entries: map<string, URLLong>,
                   failing: map<string, Error>, addFault: Option<Error>)
    requires Validator.CheckLink(long)
    ensures match Scan(gen, entries, failing, 0)
      case TimedOut =>
        CreateReply(long, gen, entries, failing, addFault) == ("", Some(GenerateTimeout)) &&
        CreateCalls(long, gen, entries, failing) == LookupsUpTo(gen, |gen|) &&
        CreateEntries(long, gen, entries, failing, addFault) == entries
      case Failed(i, e) =>
        CreateReply(long, gen, entries, failing, addFault) == ("", Some(e)) &&
        CreateCalls(long, gen, entries, failing) == LookupsUpTo(gen, i + 1) &&
        CreateEntries(long, gen, entries, failing, addFault) == entries
      case Found(i) =>
        i < |gen| &&
        CreateReply(long, gen, entries, failing, addFault)
          == (if addFault.Some? then ("", addFault) else (gen[i].short, None)) &&
        CreateCalls(long, gen, entries, failing)
          == LookupsUpTo(gen, i + 1) + [Add(NewURLData(gen[i].short, long, gen[i].now))] &&
        CreateEntries(long, gen, entries, failing, addFault)
          == (if addFault.Some? then entries else entries[gen[i].short := URLLong(long, gen[i].now)])
  {
    match Scan(gen, entries, failing, 0)
    case TimedOut => CreateTimedOut(long, gen, entries, failing, addFault);
    case Failed(i, e) => CreateFailed(long, gen, entries, failing, addFault, i, e);
    case Found(i) => CreateFound(long, gen, entries, failing, addFault, i);
  }

  /** How a call with a valid link ends when the timer fires. */
  lemma CreateTimedOut(long: string, gen: seq<Candidate>, entries: map<string, URLLong>,
                       failing: map<string, Error>, addFault: Option<Error>)
    requires Validator.CheckLink(long) && Scan(gen, entries, failing, 0) == TimedOut
    ensures CreateReply(long, gen, entries, failing, addFault) == ("", Some(GenerateTimeout))
    ensures CreateCalls(long, gen, entries, failing) == LookupsUpTo(gen, |gen|)
    ensures CreateEntries(long, gen, entries, failing, addFault) == entries
  {
  }

  /** How a call with a valid link ends on a lookup error. */
  lemma CreateFailed(long: string, gen: seq<Candidate>, entries: map<string, URLLong>,
                     failing: map<string, Error>, addFault: Option<Error>, i: nat, e: Error)
    requires Validator.CheckLink(long) && Scan(gen, entries, failing, 0) == Failed(i, e)
    ensures CreateReply(long, gen, entries, failing, addFault) == ("", Some(e))
    ensures CreateCalls(long, gen, entries, failing) == LookupsUpTo(gen, i + 1)
    ensures CreateEntries(long, gen, entries, failing, addFault) == entries
  {
  }

  /** How a call with a valid link ends once a candidate is claimed. */
  lemma CreateFound(long: string, gen: seq<Candidate>, entries: map<string, URLLong>,
                    failing: map<string, Error>, addFault: Option<Error>, i: nat)
    requires Validator.CheckLink(long) && Scan(gen, entries, failing, 0) == Found(i)
    ensures i < |gen|
    ensures CreateReply(long, gen, entries, failing, addFault)
         == (if addFault.Some? then ("", addFault) else (gen[i].short, None))
    ensures CreateCalls(long, gen, entries, failing)
         == LookupsUpTo(gen, i + 1) + [Add(NewURLData(gen[i].short, long, gen[i].now))]
    ensures CreateEntries(long, gen, entries, failing, addFault)
         == (if addFault.Some? then entries else entries[gen[i].short := URLLong(long, gen[i].now)])
  {
  }

  /** One more lookup extends the call log by one entry. */
  lemma LookupsStep(gen: seq<Candidate>, i: nat)
    requires i < |gen|
    ensures LookupsUpTo(gen, i + 1) == LookupsUpTo(gen, i) + [Lookup(gen[i].short)]
  {
  }

  /** One iteration of the loop, unfolded. */
  lemma ScanStep(gen: seq<Candidate>, entries: map<string, URLLong>, failing: map<string, Error>, i: nat)
    requires i < |gen|
    ensures var err := Reply(entries, failing, gen[i].short).1;
      Scan(gen, entries, failing, i) ==
        if err == Some(LinkNotFound) && gen[i].short != "" then Found(i)
        else if err.Some? && err != Some(LinkNotFound) then Failed(i, err.value)
        else Scan(gen, entries, failing, i + 1)
  {
  }

  /** Iterations that retry do not change where the loop ends. */
  lemma {:induction false} ScanSkips(gen: seq<Candidate>, entries: map<string, URLLong>,
                                     failing: map<string, Error>, from: nat, k: nat)
    requires from <= k <= |gen|
    requires forall j :: from <= j < k ==> StepAt(gen, entries, failing, j) == Retry
    ensures Scan(gen, entries, failing, from) == Scan(gen, entries, failing, k)
    decreases k - from
  {
    if from < k {
      ScanSkips(gen, entries, failing, from + 1, k);
    }
  }

  /** A lookup that finds the code (no error) never ends the loop. */
  lemma CollisionRetries(gen: seq<Candidate>, entries: map<string, URLLong>,
                         failing: map<string, Error>, k: nat)
    requires k < |gen| && gen[k].short in entries && gen[k].short !in failing
    ensures StepAt(gen, entries, failing, k) == Retry
  {
  }

  // ---------------------------------------------------------------------------
  // CreateUrl

  /** An invalid link is rejected before any generation or storage call. */
  lemma InvalidLinkRejected(long: string, gen: seq<Candidate>, entries: map<string, URLLong>,
                            failing: map<string, Error>, addFault: Option<Error>)
    requires !Validator.CheckLink(long)
    ensures CreateReply(long, gen, entries, failing, addFault) == ("", Some(InvalidLink))
    ensures CreateCalls(long, gen, entries, failing) == []
    ensures CreateEntries(long, gen, entries, failing, addFault) == entries
  {
  }

  /** The first non-empty candidate whose lookup reports not-found, after only collisions
      and empty codes reported not found, is stored with its own timestamp and returned. */
  lemma FirstFreeCandidateStored(long: string, gen: seq<Candidate>, entries: map<string, URLLong>,
                                 failing: map<string, Error>, k: nat)
    requires Validator.CheckLink(long)
    requires k < |gen| && gen[k].short != "" && Reply(entries, failing, gen[k].short).1 == Some(LinkNotFound)
    requires forall j :: 0 <= j < k ==> StepAt(gen, entries, failing, j) == Retry
    ensures CreateReply(long, gen, entries, failing, None) == (gen[k].short, None)
    ensures CreateCalls(long, gen, entries, failing)
         == LookupsUpTo(gen, k + 1) + [Add(NewURLData(gen[k].short, long, gen[k].now))]
    ensures CreateEntries(long, gen, entries, failing, None)
         == entries[gen[k].short := URLLong(long, gen[k].now)]
  {
    ScanSkips(gen, entries, failing, 0, k);
  }

  /** A successful call returned a non-empty code that the storage reported as not found
      (so, if the storage reported no fault for it, one it did not hold); its record was
      added exactly once, as the last call, and is now stored. */
  lemma CreatedCodeIsFresh(long: string, gen: seq<Candidate>, entries: map<string, URLLong>,
                           failing: map<string, Error>, addFault: Option<Error>)
    requires CreateReply(long, gen, entries, failing, addFault).1 == None
    ensures var short := CreateReply(long, gen, entries, failing, addFault).0;
      short != "" && Reply(entries, failing, short).1 == Some(LinkNotFound) &&
      (short !in failing ==> short !in entries) &&
      exists k :: 0 <= k < |gen| && gen[k].short == short &&
        CreateCalls(long, gen, entries, failing) == LookupsUpTo(gen, k + 1) + [Add(NewURLData(short, long, gen[k].now))] &&
        CreateEntries(long, gen, entries, failing, addFault) == entries[short := URLLong(long, gen[k].now)]
  {
    assert Validator.CheckLink(long);
    CreateEnds(long, gen, entries, failing, addFault);
    var k := Scan(gen, entries, failing, 0).i;
    assert StepAt(gen, entries, failing, k) == Claim;
    assert gen[k].short == CreateReply(long, gen, entries, failing, addFault).0;
  }

  /** The timer is the only way to time out, and it fires only when every candidate
      collided, or was empty and reported not found; a timed-out call stores nothing. */
  lemma TimeoutIffAllRetried(long: string, gen: seq<Candidate>, entries: map<string, URLLong>,
                             failing: map<string, Error>, addFault: Option<Error>)
    requires Validator.CheckLink(long)
    ensures Scan(gen, entries, failing, 0) == TimedOut
        <==> forall k :: 0 <= k < |gen| ==> StepAt(gen, entries, failing, k) == Retry
    ensures Scan(gen, entries, failing, 0) == TimedOut ==>
      CreateReply(long, gen, entries, failing, addFault) == ("", Some(GenerateTimeout)) &&
      CreateCalls(long, gen, entries, failing) == LookupsUpTo(gen, |gen|) &&
      CreateEntries(long, gen, entries, failing, addFault) == entries
  {
  }

  /** A lookup error other than not-found is returned unchanged and nothing is added. */
  lemma LookupErrorReturned(long: string, gen: seq<Candidate>, entries: map<string, URLLong>,
                            failing: map<string, Error>, addFault: Option<Error>, k: nat, e: Error)
    requires Validator.CheckLink(long)
    requires k < |gen| && Reply(entries, failing, gen[k].short).1 == Some(e) && e != LinkNotFound
    requires forall j :: 0 <= j < k ==> StepAt(gen, entries, failing, j) == Retry
    ensures CreateReply(long, gen, entries, failing, addFault) == ("", Some(e))
    ensures CreateCalls(long, gen, entries, failing) == LookupsUpTo(gen, k + 1)
    ensures CreateEntries(long, gen, entries, failing, addFault) == entries
  {
    ScanSkips(gen, entries, failing, 0, k);
  }

  /** A failing `AddUrl` is returned unchanged after its single attempt. */
  lemma AddFailureNotRetried(long: string, gen: seq<Candidate>, entries: map<string, URLLong>,
                             failing: map<string, Error>, e: Error)
    requires Validator.CheckLink(long) && Scan(gen, entries, failing, 0).Found?
    ensures CreateReply(long, gen, entries, failing, Some(e)) == ("", Some(e))
    ensures var calls := CreateCalls(long, gen, entries, failing);
      calls[|calls| - 1].Add? && forall j :: 0 <= j < |calls| - 1 ==> calls[j].Lookup?
    ensures CreateEntries(long, gen, entries, failing, Some(e)) == entries
  {
    CreateEnds(long, gen, entries, failing, Some(e));
  }

  /** `AddUrl` is called exactly when the loop claimed a candidate, and that candidate's
      code is never empty. */
  lemma AddOnlyForClaimedCode(long: string, gen: seq<Candidate>, entries: map<string, URLLong>,
                              failing: map<string, Error>, addFault: Option<Error>)
    ensures (exists c :: c in CreateCalls(long, gen, entries, failing) && c.Add?)
        <==> Validator.CheckLink(long) && Scan(gen, entries, failing, 0).Found?
    ensures forall c :: c in CreateCalls(long, gen, entries, failing) && c.Add? ==> c.data.urlShort != ""
    ensures forall code :: code in CreateEntries(long, gen, entries, failing, addFault) && code !in entries
              ==> code != ""
  {
    var calls := CreateCalls(long, gen, entries, failing);
    if Validator.CheckLink(long) {
      CreateEnds(long, gen, entries, failing, addFault);
      match Scan(gen, entries, failing, 0)
      case Found(i) =>
        assert StepAt(gen, entries, failing, i) == Claim;
        assert calls[|calls| - 1] in calls;
        forall c | c in calls && c.Add? ensures c.data.urlShort != "" {
          var j :| 0 <= j < |calls| && calls[j] == c;
          assert j == |calls| - 1;
        }
      case Failed(i, _) =>
        assert forall c :: c in calls ==> c.Lookup?;
      case TimedOut =>
        assert forall c :: c in calls ==> c.Lookup?;
    }
  }

  // ---------------------------------------------------------------------------
  // GetUrl

  /** A code over the byte limit is rejected; otherwise the storage's answer is passed
      through: its long link without error, or an empty string with its error. */
  lemma GetGuardsThenPassesThrough(entries: map<string, URLLong>, failing: map<string, Error>, code: string)
    ensures Utf8Len(code) > MaxShortBytes ==> GetReply(entries, failing, code) == ("", Some(InvalidShort))
    ensures Utf8Len(code) <= MaxShortBytes ==>
      var (v, e) := Reply(entries, failing, code);
      GetReply(entries, failing, code) == (if e == None then v.longURL else "", e)
  {
  }

  /** Byte length is the number of characters times their common UTF-8 width. */
  lemma {:induction false} Utf8LenUniform(s: string, w: nat)
    requires forall c :: c in s ==> Utf8Width(c) == w
    ensures Utf8Len(s) == w * |s|
  {
    if s != [] {
      var t := s[1..];
      assert s[0] in s;
      assert forall c :: c in t ==> c in s;
      Utf8LenUniform(t, w);
      assert Utf8Len(s) == w + Utf8Len(t);
      assert w * |s| == w * |t| + w by {
        assert |s| == |t| + 1;
      }
    }
  }

  /** Six Cyrillic letters are twelve bytes, so the guard rejects them before any lookup. */
  lemma CyrillicCodeRejected(entries: map<string, URLLong>, failing: map<string, Error>)
    ensures |"жжжжжж"| == 6
    ensures GetReply(entries, failing, "жжжжжж") == ("", Some(InvalidShort))
  {
    Utf8LenUniform("жжжжжж", 2);
  }

  // ---------------------------------------------------------------------------
  // The two operations together

  /** A code the call created reads back as the long link it was created for. */
  lemma CreateThenGet(long: string, gen: seq<Candidate>, entries: map<string, URLLong>,
                      failing: map<string, Error>, addFault: Option<Error>)
    requires CreateReply(long, gen, entries, failing, addFault).1 == None
    requires var short := CreateReply(long, gen, entries, failing, addFault).0;
      short !in failing && Utf8Len(short) <= MaxShortBytes
    ensures var short := CreateReply(long, gen, entries, failing, addFault).0;
      GetReply(CreateEntries(long, gen, entries, failing, addFault), failing, short) == (long, None)
  {
    CreatedCodeIsFresh(long, gen, entries, failing, addFault);
  }

  /** The candidates the generator yields at the given Unix seconds. */
  function Generated(nows: seq<int64>, rng: Generator.Rng): seq<Candidate> {
    seq(|nows|, k requires 0 <= k < |nows| => Candidate(Generator.CodeOf(nows[k], rng), nows[k]))
  }

  /** With the real generator, a created code always passes the byte guard, so it reads
      back unless the storage reports a fault for it. */
  lemma GeneratedCodeReadsBack(long: string, nows: seq<int64>, rng: Generator.Rng,
                               entries: map<string, URLLong>, failing: map<string, Error>,
                               addFault: Option<Error>)
    requires CreateReply(long, Generated(nows, rng), entries, failing, addFault).1 == None
    requires CreateReply(long, Generated(nows, rng), entries, failing, addFault).0 !in failing
    ensures var gen := Generated(nows, rng);
      var short := CreateReply(long, gen, entries, failing, addFault).0;
      GetReply(CreateEntries(long, gen, entries, failing, addFault), failing, short) == (long, None)
  {
    var gen := Generated(nows, rng);
    CreatedCodeIsFresh(long, gen, entries, failing, addFault);
    var k :| 0 <= k < |gen| && gen[k].short == CreateReply(long, gen, entries, failing, addFault).0;
    Generator.CodeOfShape(nows[k], rng);
    CreateThenGet(long, gen, entries, failing, addFault);
  }
}
