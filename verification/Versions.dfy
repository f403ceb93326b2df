/**
 The recalculation log and its versions. A version is stamped from a clock that may
 stall or run backwards, is written with nanoseconds and is read back rounded to
 microseconds; the newest entry is found by sorting the log, not by appending order.
 */
module Versions {
  import opened Common

  type Nanos = int
  type Micros = int

  const NANOS_PER_MICRO := 1000

  /** What reading a stored time stamp back gives: the nearest microsecond, and for an exact
      half the even one. */
  function RoundMicros(t: Nanos): Micros {
    var m, f := t / NANOS_PER_MICRO, t % NANOS_PER_MICRO;
    if f < NANOS_PER_MICRO / 2 || (f == NANOS_PER_MICRO / 2 && m % 2 == 0) then m else m + 1
  }

  /** No microsecond is nearer, and of two that are as near it is the even one. */
  lemma {:induction false} RoundIsNearest(t: Nanos)
    ensures var off := t - 1000 * RoundMicros(t);
            -500 <= off <= 500 && (off == 500 || off == -500 ==> RoundMicros(t) % 2 == 0)
  {
    assert t == 1000 * (t / 1000) + t % 1000;
  }

  /** One `queue_recalculated` event: `updatedAt` is chosen under the room lock,
      `createdAt` is the start of the transaction that wrote it. */
  datatype LogEntry<F> = LogEntry(fingerprint: F, updatedAt: Nanos, createdAt: Micros, id: nat)

  function Version<F>(e: LogEntry<F>): Micros {
    RoundMicros(e.updatedAt)
  }

  /** `a` sorts after `b` by version, then transaction start, then id. */
  predicate Later<F>(a: LogEntry<F>, b: LogEntry<F>) {
    || Version(a) > Version(b)
    || (Version(a) == Version(b) && a.createdAt > b.createdAt)
    || (Version(a) == Version(b) && a.createdAt == b.createdAt && a.id > b.id)
  }

  /** The entry the log query returns. */
  function Newest<F>(log: seq<LogEntry<F>>): (e: LogEntry<F>)
    requires log != []
    ensures e in log
    ensures forall x :: x in log ==> !Later(x, e)
  {
    var last := log[|log| - 1];
    if |log| == 1 then last
    else
      var m := Newest(log[..|log| - 1]);
      assert forall x :: x in log ==> x in log[..|log| - 1] || x == last;
      if Later(last, m) then last else m
  }

  // ---------- stamping ----------

  /** The stamp of the next entry: the clock reading, bumped past the previous version
      when the reading is not after it. */
  function NextStamp(previous: Option<Micros>, now: Nanos): Nanos {
    if previous.Some? && now <= previous.value * NANOS_PER_MICRO
    then previous.value * NANOS_PER_MICRO + NANOS_PER_MICRO
    else now
  }

  /** The reading is not lost by rounding: it is not strictly after the previous
      version and yet rounds back onto it. */
  predicate GoodReading(previous: Option<Micros>, now: Nanos) {
    previous.Some? && previous.value * NANOS_PER_MICRO < now ==> previous.value < RoundMicros(now)
  }

  lemma StampNeverGoesBack(previous: Micros, now: Nanos)
    ensures previous <= RoundMicros(NextStamp(Some(previous), now))
  {
    if now > previous * NANOS_PER_MICRO {
      assert (now + 500) / 1000 >= (previous * 1000) / 1000;
    }
  }

  /** A version grows exactly when its reading is a good one. */
  lemma {:induction false} StampGrowsIff(previous: Micros, now: Nanos)
    ensures previous < RoundMicros(NextStamp(Some(previous), now)) <==> GoodReading(Some(previous), now)
  {
    assert (previous * 1000 + 1000 + 500) / 1000 == previous + 1;
  }

  /** Every reading of a clock with microsecond resolution is good. */
  lemma {:induction false} MicrosecondReadingIsGood(previous: Option<Micros>, now: Nanos)
    requires now % NANOS_PER_MICRO == 0
    ensures GoodReading(previous, now)
  {
    var m := now / 1000;
    assert now == m * 1000;
    assert (m * 1000 + 500) / 1000 == m;
  }

  // ---------- the log ----------

  ghost predicate NonDecreasing<F>(log: seq<LogEntry<F>>) {
    forall i, j :: 0 <= i < j < |log| ==> Version(log[i]) <= Version(log[j])
  }

  ghost predicate Increasing<F>(log: seq<LogEntry<F>>) {
    forall i, j :: 0 <= i < j < |log| ==> Version(log[i]) < Version(log[j])
  }

  function Last<T>(s: seq<T>): T
    requires s != []
  {
    s[|s| - 1]
  }

  lemma NewestVersionIsLast<F>(log: seq<LogEntry<F>>)
    requires log != [] && NonDecreasing(log)
    ensures Version(Newest(log)) == Version(Last(log))
  {
    var e := Newest(log);
    var i :| 0 <= i < |log| && log[i] == e;
    assert !Later(Last(log), e);
  }

  /** The newest entry is the last committed one if that sorts after all others, and only
      if none of the others sorts after it. */
  lemma {:induction false} NewestIsLast<F>(log: seq<LogEntry<F>>)
    requires log != []
    ensures (forall i :: 0 <= i < |log| - 1 ==> Later(Last(log), log[i])) ==> Newest(log) == Last(log)
    ensures Newest(log) == Last(log) ==> forall i :: 0 <= i < |log| ==> !Later(log[i], Last(log))
  {
    var e := Newest(log);
    var i :| 0 <= i < |log| && log[i] == e;
    assert !Later(Last(log), e);
  }

  function PreviousVersion<F>(log: seq<LogEntry<F>>): Option<Micros> {
    if log == [] then None else Some(Version(Newest(log)))
  }

  function Append<F>(log: seq<LogEntry<F>>, fingerprint: F, now: Nanos, createdAt: Micros, id: nat): seq<LogEntry<F>> {
    log + [LogEntry(fingerprint, NextStamp(PreviousVersion(log), now), createdAt, id)]
  }

  /** The appended version against the one before it. */
  lemma AppendedVersion<F>(log: seq<LogEntry<F>>, fp: F, now: Nanos, createdAt: Micros, id: nat)
    requires log != [] && NonDecreasing(log)
    ensures Version(Last(log)) <= Version(Last(Append(log, fp, now, createdAt, id)))
    ensures Version(Last(log)) < Version(Last(Append(log, fp, now, createdAt, id)))
            <==> GoodReading(PreviousVersion(log), now)
  {
    NewestVersionIsLast(log);
    StampNeverGoesBack(Version(Last(log)), now);
    StampGrowsIff(Version(Last(log)), now);
  }

  lemma OneMoreEntry<F>(log: seq<LogEntry<F>>, e: LogEntry<F>)
    requires NonDecreasing(log) && (log != [] ==> Version(Last(log)) <= Version(e))
    ensures NonDecreasing(log + [e])
    ensures Increasing(log + [e]) <==> Increasing(log) && (log != [] ==> Version(Last(log)) < Version(e))
  {
    var more := log + [e];
    assert more[..|log|] == log;
    assert forall i :: 0 <= i < |log| ==> more[i] == log[i];
    if Increasing(more) && log != [] {
      assert Version(more[|log| - 1]) < Version(more[|log|]);
    }
  }

  /** Appending keeps versions from going back, for every clock reading, and keeps them
      strictly increasing exactly for the good readings. */
  lemma {:induction false} AppendKeepsOrder<F>(log: seq<LogEntry<F>>, fp: F, now: Nanos, createdAt: Micros, id: nat)
    requires NonDecreasing(log)
    ensures NonDecreasing(Append(log, fp, now, createdAt, id))
    ensures Increasing(Append(log, fp, now, createdAt, id))
            <==> Increasing(log) && GoodReading(PreviousVersion(log), now)
  {
    if log != [] { AppendedVersion(log, fp, now, createdAt, id); }
    OneMoreEntry(log, Last(Append(log, fp, now, createdAt, id)));
  }

  /** Known before an entry is written: its reading is a good one, or its transaction
      breaks the tie of versions by a later start or a larger id. */
  predicate Lands<F>(log: seq<LogEntry<F>>, now: Nanos, createdAt: Micros, id: nat) {
    log != [] ==>
      var e := Newest(log);
      GoodReading(Some(Version(e)), now) || createdAt > e.createdAt || (createdAt == e.createdAt && id > e.id)
  }

  /** The query finds an appended entry exactly if it lands; otherwise it keeps finding the
      entry it found before. */
  lemma NewestAfterAppend<F>(log: seq<LogEntry<F>>, fp: F, now: Nanos, createdAt: Micros, id: nat)
    ensures var more := Append(log, fp, now, createdAt, id);
            Newest(more) == if Lands(log, now, createdAt, id) then Last(more) else Newest(log)
  {
    assert Append(log, fp, now, createdAt, id)[..|log|] == log;
    if log != [] {
      StampNeverGoesBack(Version(Newest(log)), now);
      StampGrowsIff(Version(Newest(log)), now);
    }
  }

  // ---------- receivers ----------

  /** A snapshot message as a client sees it: its version and its content. */
  datatype Versioned<T> = Versioned(version: Micros, content: T)

  /** A client keeps the snapshot with the largest version, in whatever order the
      messages arrive. */
  function Kept<T>(delivered: seq<Versioned<T>>): Option<Versioned<T>> {
    if delivered == [] then None
    else
      var before := Kept(delivered[..|delivered| - 1]);
      var m := delivered[|delivered| - 1];
      if before.Some? && m.version <= before.value.version then before else Some(m)
  }

  lemma {:induction false} KeptIsLargest<T>(delivered: seq<Versioned<T>>)
    requires delivered != []
    ensures Kept(delivered).Some? && Kept(delivered).value in delivered
    ensures forall m :: m in delivered ==> m.version <= Kept(delivered).value.version
  {
    var front := delivered[..|delivered| - 1];
    assert forall m :: m in delivered ==> m in front || m == Last(delivered);
    if front != [] {
      KeptIsLargest(front);
    }
  }

  /** Part of what was committed, with losses and repetitions and in any order, the last
      committed message among it. */
  ghost predicate Delivers<T>(committed: seq<Versioned<T>>, delivered: seq<Versioned<T>>)
    requires committed != []
  {
    (forall m :: m in delivered ==> m in committed) && Last(committed) in delivered
  }

  /** No other message carries a version as large as the last one's. */
  ghost predicate LastStandsOut<T>(committed: seq<Versioned<T>>)
    requires committed != []
  {
    forall m :: m in committed ==> m == Last(committed) || m.version < Last(committed).version
  }

  lemma {:induction false} KeptOfTwo<T>(m: Versioned<T>, n: Versioned<T>)
    ensures Kept([m, n]) == Some(if n.version <= m.version then m else n)
  {
    var both := [m, n];
    assert both[..1] == [m] && [m][..0] == [];
    assert Kept([m]) == Some(m);
    assert Kept(both[..|both| - 1]) == Some(m);
  }

  /** Every delivery leaves its client on the last committed snapshot if and only if no
      other snapshot carries as large a version. */
  lemma {:induction false} ReceiversEndOnLastIff<T(!new)>(committed: seq<Versioned<T>>)
    requires committed != []
    ensures LastStandsOut(committed)
            <==> forall delivered :: Delivers(committed, delivered) ==> Kept(delivered) == Some(Last(committed))
  {
    if LastStandsOut(committed) {
      forall delivered | Delivers(committed, delivered) ensures Kept(delivered) == Some(Last(committed)) {
        KeptIsLargest(delivered);
      }
    } else {
      var last := Last(committed);
      var m :| m in committed && m != last && m.version >= last.version;
      var delivered := [m, last];
      KeptOfTwo(m, last);
      assert Delivers(committed, delivered);
    }
  }
}
