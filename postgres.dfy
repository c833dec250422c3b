/** The PostgreSQL backend: each storage call runs one transaction, Begin, then an
    INSERT (`AddUrl`) or a single-row SELECT and Scan (`GetUrl`), then Commit, with a
    Rollback deferred right after a successful Begin. The database is a scripted object:
    what each step returns is an input, and every step it is asked to take is recorded
    in its trace. */
module Postgres {
  import opened Domain

  /** One step the storage asks of the pool or its transaction. */
  datatype TxCall = BeginStep | ExecStep(data: URLData) | QueryStep(short: string) | CommitStep | RollbackStep

  /** What `QueryRow(...).Scan(...)` yields: a row, pgx's `ErrNoRows`, or another error. */
  datatype ScanResult = Row(long: URLLong) | NoRows | ScanFailed(err: Error)

  /** The outcome the database gives for each step. */
  datatype TxScript = TxScript(begin: Option<Error>, exec: Option<Error>, scan: ScanResult,
                               commit: Option<Error>, rollback: Option<Error>)

  /** The connection pool together with the transaction it opens. */
  class Pool {
    const script: TxScript
    var trace: seq<TxCall>

    constructor (script: TxScript)
      ensures this.script == script && trace == []
    {
      this.script := script;
      trace := [];
    }

    method Begin() returns (err: Option<Error>)
      modifies this
      ensures err == script.begin && trace == old(trace) + [BeginStep]
    {
      trace := trace + [BeginStep];
      err := script.begin;
    }

    method Exec(data: URLData) returns (err: Option<Error>)
      modifies this
      ensures err == script.exec && trace == old(trace) + [ExecStep(data)]
    {
      trace := trace + [ExecStep(data)];
      err := script.exec;
    }

    method QueryRowScan(short: string) returns (r: ScanResult)
      modifies this
      ensures r == script.scan && trace == old(trace) + [QueryStep(short)]
    {
      trace := trace + [QueryStep(short)];
      r := script.scan;
    }

    method Commit() returns (err: Option<Error>)
      modifies this
      ensures err == script.commit && trace == old(trace) + [CommitStep]
    {
      trace := trace + [CommitStep];
      err := script.commit;
    }

    method Rollback() returns (err: Option<Error>)
      modifies this
      ensures err == script.rollback && trace == old(trace) + [RollbackStep]
    {
      trace := trace + [RollbackStep];
      err := script.rollback;
    }
  }

  // ---------------------------------------------------------------------------
  // What one call does, as functions of the script

  /** The error `AddUrl` returns. */
  function AddResult(s: TxScript): Option<Error> {
    if s.begin.Some? then s.begin
    else if s.exec.Some? then s.exec
    else s.commit
  }

  /** The steps `AddUrl` takes. */
  function AddTrace(s: TxScript, d: URLData): seq<TxCall> {
    if s.begin.Some? then [BeginStep]
    else if s.exec.Some? then [BeginStep, ExecStep(d), RollbackStep]
    else [BeginStep, ExecStep(d), CommitStep, RollbackStep]
  }

  /** The value and error `GetUrl` returns. */
  function GetResult(s: TxScript): (URLLong, Option<Error>) {
    if s.begin.Some? then (EmptyLong, s.begin)
    else match s.scan
      case NoRows => (EmptyLong, Some(LinkNotFound))
      case ScanFailed(e) => (EmptyLong, Some(e))
      case Row(long) => if s.commit.Some? then (EmptyLong, s.commit) else (long, None)
  }

  /** The steps `GetUrl` takes. */
  function GetTrace(s: TxScript, short: string): seq<TxCall> {
    if s.begin.Some? then [BeginStep]
    else if !s.scan.Row? then [BeginStep, QueryStep(short), RollbackStep]
    else [BeginStep, QueryStep(short), CommitStep, RollbackStep]
  }

  class UrlStorage {
    const pool: Pool

    constructor (pool: Pool)
      ensures this.pool == pool
    {
      this.pool := pool;
    }

    /** Inserts the record in its own transaction. The deferred Rollback is written out
        before every return that follows a successful Begin. */
    method AddUrl(urlData: URLData) returns (err: Option<Error>)
      modifies pool
      ensures err == AddResult(pool.script)
      ensures pool.trace == old(pool.trace) + AddTrace(pool.script, urlData)
    {
      err := pool.Begin();
      if err.Some? {
        return;
      }
      var ignored: Option<Error>;
      err := pool.Exec(urlData);
      if err.Some? {
        ignored := pool.Rollback();
        return;
      }
      err := pool.Commit();
      if err.Some? {
        ignored := pool.Rollback();
        return;
      }
      ignored := pool.Rollback();
      return None;
    }

    /** Reads the record for `shortUrl` in its own transaction; `ErrNoRows` becomes
        `ErrorLinkNotFound`, and every failure returns the zero `URLLong`. */
    method GetUrl(shortUrl: string) returns (longUrl: URLLong, err: Option<Error>)
      modifies pool
      ensures (longUrl, err) == GetResult(pool.script)
      ensures pool.trace == old(pool.trace) + GetTrace(pool.script, shortUrl)
    {
      err := pool.Begin();
      if err.Some? {
        return EmptyLong, err;
      }
      var ignored: Option<Error>;
      var urllong := EmptyLong;
      var scanned := pool.QueryRowScan(shortUrl);
      match scanned {
        case NoRows =>
          ignored := pool.Rollback();
          return EmptyLong, Some(LinkNotFound);
        case ScanFailed(e) =>
          ignored := pool.Rollback();
          return EmptyLong, Some(e);
        case Row(long) =>
          urllong := long;
      }
      err := pool.Commit();
      if err.Some? {
        ignored := pool.Rollback();
        return EmptyLong, err;
      }
      ignored := pool.Rollback();
      return urllong, None;
    }
  }

  // ---------------------------------------------------------------------------
  // The transaction protocol

  /** Number of occurrences of `c` in `t`. */
  function Count(t: seq<TxCall>, c: TxCall): (n: nat)
    ensures n <= |t|
    ensures n == 0 <==> c !in t
  {
    if t == [] then 0
    else (if t[0] == c then 1 else 0) + Count(t[1..], c)
  }

  lemma {:induction false} CountAppend(t: seq<TxCall>, u: seq<TxCall>, c: TxCall)
    ensures Count(t + u, c) == Count(t, c) + Count(u, c)
  {
    if t == [] {
      assert t + u == u;
    } else {
      assert (t + u)[1..] == t[1..] + u;
      CountAppend(t[1..], u, c);
    }
  }

  /** A transaction that was opened is closed by exactly one Rollback, which is its last
      step; it was opened exactly once, first, and commits at most once, just before the
      Rollback. A failed Begin is the only step of its call. */
  predicate Bracketed(t: seq<TxCall>) {
    |t| >= 1 && t[0] == BeginStep && Count(t, BeginStep) == 1 &&
    (|t| == 1 ||
     (t[|t| - 1] == RollbackStep && Count(t, RollbackStep) == 1 &&
      Count(t, CommitStep) <= 1 && (CommitStep in t ==> t[|t| - 2] == CommitStep)))
  }

  /** The count in a four-step trace is the sum of the counts of its steps. */
  lemma CountOfFour(a: TxCall, b: TxCall, c: TxCall, d: TxCall, x: TxCall)
    ensures Count([a, b, c, d], x) == Count([a], x) + Count([b], x) + Count([c], x) + Count([d], x)
  {
    assert [a, b, c, d] == [a] + [b] + [c] + [d];
    CountAppend([a] + [b] + [c], [d], x);
    CountAppend([a] + [b], [c], x);
    CountAppend([a], [b], x);
  }

  lemma CountOfThree(a: TxCall, b: TxCall, c: TxCall, x: TxCall)
    ensures Count([a, b, c], x) == Count([a], x) + Count([b], x) + Count([c], x)
  {
    assert [a, b, c] == [a] + [b] + [c];
    CountAppend([a] + [b], [c], x);
    CountAppend([a], [b], x);
  }

  /** Both calls follow the protocol on every script. */
  lemma TracesBracketed(s: TxScript, d: URLData, short: string)
    ensures Bracketed(AddTrace(s, d))
    ensures Bracketed(GetTrace(s, short))
  {
    var x := ExecStep(d);
    var q := QueryStep(short);
    CountOfThree(BeginStep, x, RollbackStep, BeginStep);
    CountOfThree(BeginStep, x, RollbackStep, RollbackStep);
    CountOfThree(BeginStep, x, RollbackStep, CommitStep);
    CountOfFour(BeginStep, x, CommitStep, RollbackStep, BeginStep);
    CountOfFour(BeginStep, x, CommitStep, RollbackStep, RollbackStep);
    CountOfFour(BeginStep, x, CommitStep, RollbackStep, CommitStep);
    CountOfThree(BeginStep, q, RollbackStep, BeginStep);
    CountOfThree(BeginStep, q, RollbackStep, RollbackStep);
    CountOfThree(BeginStep, q, RollbackStep, CommitStep);
    CountOfFour(BeginStep, q, CommitStep, RollbackStep, BeginStep);
    CountOfFour(BeginStep, q, CommitStep, RollbackStep, RollbackStep);
    CountOfFour(BeginStep, q, CommitStep, RollbackStep, CommitStep);
  }

  /** A failed Begin is returned as it is, and nothing else is asked of the database:
      no statement, no Commit, no Rollback. */
  lemma BeginFailure(s: TxScript, d: URLData, short: string)
    requires s.begin.Some?
    ensures AddResult(s) == s.begin && AddTrace(s, d) == [BeginStep]
    ensures GetResult(s) == (EmptyLong, s.begin) && GetTrace(s, short) == [BeginStep]
  {
  }

  /** After a successful Begin, Rollback runs exactly once, as the last step, on every
      path; what it returns affects neither result. */
  lemma RollbackAlways(s: TxScript, d: URLData, short: string, r: Option<Error>)
    requires s.begin == None
    ensures Count(AddTrace(s, d), RollbackStep) == 1 && AddTrace(s, d)[|AddTrace(s, d)| - 1] == RollbackStep
    ensures Count(GetTrace(s, short), RollbackStep) == 1 && GetTrace(s, short)[|GetTrace(s, short)| - 1] == RollbackStep
    ensures AddResult(s.(rollback := r)) == AddResult(s)
    ensures GetResult(s.(rollback := r)) == GetResult(s)
  {
    TracesBracketed(s, d, short);
  }

  /** Commit is attempted exactly when the statement succeeded. */
  lemma CommitOnlyAfterStatement(s: TxScript, d: URLData, short: string)
    ensures CommitStep in AddTrace(s, d) <==> s.begin == None && s.exec == None
    ensures CommitStep in GetTrace(s, short) <==> s.begin == None && s.scan.Row?
  {
  }

  /** An INSERT failure is returned and Commit is not attempted. */
  lemma ExecFailure(s: TxScript, d: URLData)
    requires s.begin == None && s.exec.Some?
    ensures AddResult(s) == s.exec
    ensures AddTrace(s, d) == [BeginStep, ExecStep(d), RollbackStep]
  {
  }

  /** A Commit failure is returned; `GetUrl` then drops the row it scanned. */
  lemma CommitFailure(s: TxScript, d: URLData, long: URLLong)
    requires s.begin == None && s.commit.Some?
    ensures s.exec == None ==> AddResult(s) == s.commit
    ensures s.scan == Row(long) ==> GetResult(s) == (EmptyLong, s.commit)
  {
  }

  /** `ErrNoRows` becomes `ErrorLinkNotFound`; any other scan error is passed through; in
      both cases the value is the zero `URLLong` and Commit is not attempted. */
  lemma ScanFailure(s: TxScript, short: string)
    requires s.begin == None && !s.scan.Row?
    ensures s.scan == NoRows ==> GetResult(s) == (EmptyLong, Some(LinkNotFound))
    ensures s.scan.ScanFailed? ==> GetResult(s) == (EmptyLong, Some(s.scan.err))
    ensures GetTrace(s, short) == [BeginStep, QueryStep(short), RollbackStep]
  {
  }

  /** On full success `AddUrl` returns nil and `GetUrl` returns the scanned row. */
  lemma FullSuccess(s: TxScript, long: URLLong)
    requires s.begin == None && s.commit == None
    ensures s.exec == None ==> AddResult(s) == None
    ensures s.scan == Row(long) ==> GetResult(s) == (long, None)
  {
  }

  /** `AddUrl` reports success exactly when Begin, INSERT and Commit all succeeded, and
      `GetUrl` exactly when a row was scanned and committed. */
  lemma SuccessIff(s: TxScript)
    ensures AddResult(s) == None <==> s.begin == None && s.exec == None && s.commit == None
    ensures GetResult(s).1 == None <==> s.begin == None && s.scan.Row? && s.commit == None
  {
  }
}
