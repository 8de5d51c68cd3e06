/**
 The token-bucket limiter: one bucket per key, refilled lazily when the key is next seen,
 capped at the burst, and evicted by a sweeper once it has been idle for ten minutes.

 The bucket is a constant-space summary of the key's whole request history. The reference it is
 compared with keeps that history and decides by looking at every window of it (`Greedy`).
 Tokens and instants (in seconds) are reals.
 */
module RateLimit {
  import opened Options

  datatype Bucket = Bucket(tokens: real, last: real)

  datatype Config = Config(rate: real, burst: real)

  const IDLE := 600.0

  function Configure(perMinute: int, burst: int): Config {
    Config(perMinute as real / 60.0, burst as real)
  }

  // ---------------------------------------------------------------- one bucket

  /** Tokens refilled over a span of time. */
  function Earned(c: Config, seconds: real): real {
    seconds * c.rate
  }

  lemma EarnedBetween(c: Config, from: real, to: real)
    ensures Earned(c, to - from) == Earned(c, to) - Earned(c, from)
  {
  }

  /** Tokens a key has at `now`, before the request at `now` takes one. */
  function Available(c: Config, b: Option<Bucket>, now: real): real {
    match b
    case None => c.burst
    case Some(b) =>
      var refilled := b.tokens + Earned(c, now - b.last);
      if refilled > c.burst then c.burst else refilled
  }

  function Touch(c: Config, b: Option<Bucket>, now: real): (Bucket, bool) {
    var tokens := Available(c, b, now);
    if tokens < 1.0 then (Bucket(tokens, now), false) else (Bucket(tokens - 1.0, now), true)
  }

  datatype KeyRun = KeyRun(bucket: Option<Bucket>, answers: seq<bool>)

  /** One key's bucket and answers after requests at the instants `ts`, in lock order. */
  function Serve(c: Config, ts: seq<real>): (r: KeyRun)
    ensures |r.answers| == |ts|
  {
    if ts == [] then KeyRun(None, []) else
      var n := |ts| - 1;
      var before := Serve(c, ts[..n]);
      var (b, ok) := Touch(c, before.bucket, ts[n]);
      KeyRun(Some(b), before.answers + [ok])
  }

  // ---------------------------------------------------------------- the reference policy

  function Admitted(answers: seq<bool>): nat {
    if answers == [] then 0
    else Admitted(answers[..|answers| - 1]) + if answers[|answers| - 1] then 1 else 0
  }

  /** Admitting the last of `ts` keeps the window that starts at request `j` within its allowance. */
  predicate Fits(c: Config, ts: seq<real>, past: seq<bool>, j: nat)
    requires j < |ts| && |past| == |ts| - 1
  {
    Admitted(past[j..]) as real + 1.0 <= c.burst + Earned(c, ts[|ts| - 1] - ts[j])
  }

  /** Admit a request exactly when every window ending at it stays within burst + rate * length. */
  function Greedy(c: Config, ts: seq<real>): (answers: seq<bool>)
    ensures |answers| == |ts|
  {
    if ts == [] then [] else
      var past := Greedy(c, ts[..|ts| - 1]);
      past + [forall j | 0 <= j < |ts| :: Fits(c, ts, past, j)]
  }

  /** The same policy, looking only at windows that start at an admitted request or at the request itself. */
  function GreedyAtAdmitted(c: Config, ts: seq<real>): (answers: seq<bool>)
    ensures |answers| == |ts|
  {
    if ts == [] then [] else
      var past := GreedyAtAdmitted(c, ts[..|ts| - 1]);
      past + [forall j | 0 <= j < |ts| && (j < |past| ==> past[j]) :: Fits(c, ts, past, j)]
  }

  lemma AdmittedSnoc(answers: seq<bool>, ok: bool, j: nat)
    requires j <= |answers|
    ensures Admitted((answers + [ok])[j..]) == Admitted(answers[j..]) + if ok then 1 else 0
  {
    var longer := (answers + [ok])[j..];
    assert longer[..|longer| - 1] == answers[j..];
  }

  // ---------------------------------------------------------------- the bucket in refill units
  // Measuring instants by the volume refilled up to them (rate * instant) removes every product.

  function Capped(burst: real, tokens: real): real {
    if tokens > burst then burst else tokens
  }

  datatype Level = Level(tokens: real, last: real, answers: seq<bool>)

  /** Tokens found by a request at volume `v`, after requests at the volumes `vs`. */
  function Found(burst: real, vs: seq<real>, v: real): real
    decreases |vs|, 1
  {
    if vs == [] then burst else
      var l := Fill(burst, vs);
      Capped(burst, l.tokens + v - l.last)
  }

  function Fill(burst: real, vs: seq<real>): (l: Level)
    ensures |l.answers| == |vs|
    decreases |vs|, 0
  {
    if vs == [] then Level(burst, 0.0, []) else
      var n := |vs| - 1;
      var found := Found(burst, vs[..n], vs[n]);
      Level(if found < 1.0 then found else found - 1.0, vs[n], Fill(burst, vs[..n]).answers + [!(found < 1.0)])
  }

  function Volumes(c: Config, ts: seq<real>): seq<real> {
    seq(|ts|, i requires 0 <= i < |ts| => Earned(c, ts[i]))
  }

  lemma {:induction false} ServeInVolumes(c: Config, ts: seq<real>)
    ensures var l, r := Fill(c.burst, Volumes(c, ts)), Serve(c, ts);
            && l.answers == r.answers
            && (ts != [] ==>
                  && r.bucket.Some? && l.tokens == r.bucket.value.tokens
                  && l.last == Earned(c, r.bucket.value.last))
  {
    if ts != [] {
      var n := |ts| - 1;
      ServeInVolumes(c, ts[..n]);
      assert Volumes(c, ts)[..n] == Volumes(c, ts[..n]);
      FoundInVolumes(c, ts[..n], ts[n]);
    }
  }

  lemma FoundInVolumes(c: Config, ts: seq<real>, now: real)
    requires var l, r := Fill(c.burst, Volumes(c, ts)), Serve(c, ts);
             ts != [] ==>
               && r.bucket.Some? && l.tokens == r.bucket.value.tokens
               && l.last == Earned(c, r.bucket.value.last)
    ensures Found(c.burst, Volumes(c, ts), Earned(c, now)) == Available(c, Serve(c, ts).bucket, now)
  {
    if ts != [] {
      var b := Serve(c, ts).bucket.value;
      EarnedBetween(c, b.last, now);
    }
  }

  /** Room left, before the request at volume `v`, in the window that starts at request `j`. */
  function Slack(burst: real, vs: seq<real>, past: seq<bool>, v: real, j: nat): real
    requires j <= |vs| == |past|
  {
    burst + v - (if j < |vs| then vs[j] else v) - Admitted(past[j..]) as real
  }

  lemma SlackSnoc(burst: real, vs: seq<real>, past: seq<bool>, last: real, ok: bool, v: real, j: nat)
    requires j <= |vs| == |past|
    ensures Slack(burst, vs + [last], past + [ok], v, j)
         == Slack(burst, vs, past, last, j) - (if ok then 1.0 else 0.0) + v - last
  {
    AdmittedSnoc(past, ok, j);
  }

  /** No window, whichever request it starts at, has less slack than the tokens found. */
  lemma {:induction false} WindowBound(burst: real, vs: seq<real>, v: real, j: nat)
    requires j <= |vs|
    ensures Found(burst, vs, v) <= Slack(burst, vs, Fill(burst, vs).answers, v, j)
  {
    if j == |vs| {
      assert Fill(burst, vs).answers[j..] == [];
    } else {
      var n := |vs| - 1;
      WindowBound(burst, vs[..n], vs[n], j);
      assert vs == vs[..n] + [vs[n]];
      SlackSnoc(burst, vs[..n], Fill(burst, vs[..n]).answers, vs[n], !(Found(burst, vs[..n], vs[n]) < 1.0), v, j);
    }
  }

  /**
   The tokens a request finds are the slack of its tightest window, over all windows that
   start at it or at any earlier request; and if there is a burst to spend, that window starts at an admitted request
   or at the request itself. Timestamps may go backwards.
   */
  lemma {:induction false} TightestWindow(burst: real, vs: seq<real>, v: real) returns (w: nat)
    ensures w <= |vs|
    ensures Found(burst, vs, v) == Slack(burst, vs, Fill(burst, vs).answers, v, w)
    ensures burst >= 1.0 && w < |vs| ==> Fill(burst, vs).answers[w]
    ensures Found(burst, vs, v) == burst || w < |vs|
  {
    w := |vs|;
    assert Fill(burst, vs).answers[w..] == [];
    if vs != [] && Found(burst, vs, v) < burst {
      var n := |vs| - 1;
      w := TightestWindow(burst, vs[..n], vs[n]);
      assert vs == vs[..n] + [vs[n]];
      assert w < n ==> Fill(burst, vs).answers[w] == Fill(burst, vs[..n]).answers[w];
      SlackSnoc(burst, vs[..n], Fill(burst, vs[..n]).answers, vs[n], !(Found(burst, vs[..n], vs[n]) < 1.0), v, w);
    }
  }

  lemma FitsBySlack(c: Config, ts: seq<real>, past: seq<bool>, j: nat)
    requires j < |ts| && |past| == |ts| - 1
    ensures Fits(c, ts, past, j)
       <==> Slack(c.burst, Volumes(c, ts[..|past|]), past, Earned(c, ts[|past|]), j) >= 1.0
  {
    var n := |past|;
    EarnedBetween(c, ts[j], ts[n]);
  }

  /** The bucket is the greedy policy, for every configuration and every history, in any clock order. */
  lemma {:induction false} BucketIsGreedy(c: Config, ts: seq<real>)
    ensures Serve(c, ts).answers == Greedy(c, ts)
  {
    if ts != [] {
      var n := |ts| - 1;
      BucketIsGreedy(c, ts[..n]);
      var past, vs, v := Serve(c, ts[..n]), Volumes(c, ts[..n]), Earned(c, ts[n]);
      ServeInVolumes(c, ts[..n]);
      FoundInVolumes(c, ts[..n], ts[n]);
      var w := TightestWindow(c.burst, vs, v);
      forall j: nat | j < |ts|
        ensures Fits(c, ts, past.answers, j) <==> Slack(c.burst, vs, past.answers, v, j) >= 1.0
        ensures Found(c.burst, vs, v) <= Slack(c.burst, vs, past.answers, v, j)
      {
        FitsBySlack(c, ts, past.answers, j);
        WindowBound(c.burst, vs, v, j);
      }
      assert Found(c.burst, vs, v) >= 1.0 <==> forall j | 0 <= j < |ts| :: Fits(c, ts, past.answers, j);
    }
  }

  // ---------------------------------------------------------------- consequences for one key

  lemma EarnedMonotone(c: Config, less: real, more: real)
    requires c.rate >= 0.0 && less <= more
    ensures Earned(c, less) <= Earned(c, more)
  {
    assert (more - less) * c.rate >= 0.0;
    EarnedBetween(c, less, more);
  }

  /** A request at `now` is admitted exactly when the windows that start at admitted requests, or at it, allow it. */
  lemma AdmittedWindowsSuffice(c: Config, ts: seq<real>, past: seq<bool>)
    requires ts != [] && past == Serve(c, ts[..|ts| - 1]).answers
    requires forall j | 0 <= j < |ts| && (j < |past| ==> past[j]) :: Fits(c, ts, past, j)
    ensures forall j | 0 <= j < |ts| :: Fits(c, ts, past, j)
  {
    var n := |past|;
    var vs, v := Volumes(c, ts[..n]), Earned(c, ts[n]);
    ServeInVolumes(c, ts[..n]);
    var w := TightestWindow(c.burst, vs, v);
    FitsBySlack(c, ts, past, n);
    assert past[n..] == [];
    FitsBySlack(c, ts, past, w);
    forall j: nat | j < |ts| ensures Fits(c, ts, past, j) {
      FitsBySlack(c, ts, past, j);
      WindowBound(c.burst, vs, v, j);
    }
  }

  /** For every history, in any clock order, only windows that start at an admitted request or at the request matter. */
  lemma {:induction false} BucketIsGreedyAtAdmitted(c: Config, ts: seq<real>)
    ensures Serve(c, ts).answers == GreedyAtAdmitted(c, ts)
  {
    BucketIsGreedy(c, ts);
    if ts != [] {
      var init := ts[..|ts| - 1];
      BucketIsGreedyAtAdmitted(c, init);
      BucketIsGreedy(c, init);
      var past := Greedy(c, init);
      if forall j | 0 <= j < |ts| && (j < |past| ==> past[j]) :: Fits(c, ts, past, j) {
        AdmittedWindowsSuffice(c, ts, past);
      }
    }
  }

  lemma {:induction false} FillPrefix(burst: real, vs: seq<real>, n: nat)
    requires n <= |vs|
    ensures Fill(burst, vs).answers[..n] == Fill(burst, vs[..n]).answers
  {
    if n < |vs| {
      var m := |vs| - 1;
      FillPrefix(burst, vs[..m], n);
      assert vs[..m][..n] == vs[..n];
    } else {
      assert vs[..n] == vs;
    }
  }

  /** A window that ends at an admitted request is within its allowance. */
  lemma AdmittedWindow(burst: real, vs: seq<real>, i: nat, j: nat)
    requires i <= j < |vs| && Fill(burst, vs).answers[j]
    ensures Admitted(Fill(burst, vs).answers[i..j]) as real + 1.0 <= burst + vs[j] - vs[i]
  {
    var answers, upto := Fill(burst, vs).answers, vs[..j + 1];
    FillPrefix(burst, vs, j + 1);
    assert Fill(burst, upto).answers[j] == answers[j];
    FillPrefix(burst, vs, j);
    assert upto[..j] == vs[..j] && answers[..j][i..] == answers[i..j];
    WindowBound(burst, vs[..j], vs[j], i);
  }

  lemma AdmittedExtend(answers: seq<bool>, i: nat, j: nat)
    requires i <= j < |answers|
    ensures Admitted(answers[i..j + 1]) == Admitted(answers[i..j]) + if answers[j] then 1 else 0
  {
    assert answers[i..j + 1][..j - i] == answers[i..j];
  }

  lemma {:induction false} VolumeBound(burst: real, vs: seq<real>, i: nat, j: nat, lo: real, hi: real)
    requires i <= j <= |vs| && forall k | i <= k < j :: lo <= vs[k] <= hi
    ensures var admitted := Admitted(Fill(burst, vs).answers[i..j]);
            admitted == 0 || admitted as real <= burst + hi - lo
    decreases j
  {
    var answers := Fill(burst, vs).answers;
    if i < j {
      AdmittedExtend(answers, i, j - 1);
      if answers[j - 1] {
        AdmittedWindow(burst, vs, i, j - 1);
      } else {
        VolumeBound(burst, vs, i, j - 1, lo, hi);
      }
    }
  }

  /**
   Any consecutive requests whose timestamps lie within a span admit at most burst plus what the
   span refills, even when the timestamps go backwards inside it.
   */
  lemma RateBound(c: Config, ts: seq<real>, i: nat, j: nat, from: real, to: real)
    requires i <= j <= |ts| && c.rate >= 0.0
    requires forall k | i <= k < j :: from <= ts[k] <= to
    ensures var admitted := Admitted(Serve(c, ts).answers[i..j]);
            admitted == 0 || admitted as real <= c.burst + Earned(c, to - from)
  {
    var vs := Volumes(c, ts);
    forall k | i <= k < j ensures Earned(c, from) <= vs[k] <= Earned(c, to) {
      EarnedMonotone(c, from, ts[k]);
      EarnedMonotone(c, ts[k], to);
    }
    ServeInVolumes(c, ts);
    VolumeBound(c.burst, vs, i, j, Earned(c, from), Earned(c, to));
    EarnedBetween(c, from, to);
  }

  // ---------------------------------------------------------------- the whole limiter

  datatype Event = Request(key: string, at: real) | Sweep(at: real)

  datatype Answer = Answer(key: string, ok: bool)

  datatype LimiterRun = LimiterRun(buckets: map<string, Bucket>, answers: seq<Answer>)

  function Swept(buckets: map<string, Bucket>, now: real): map<string, Bucket> {
    map k | k in buckets && !(buckets[k].last < now - IDLE) :: buckets[k]
  }

  function Handle(c: Config, r: LimiterRun, e: Event): LimiterRun {
    match e
    case Request(key, at) =>
      var (b, ok) := Touch(c, Lookup(r.buckets, key), at);
      LimiterRun(r.buckets[key := b], r.answers + [Answer(key, ok)])
    case Sweep(at) => LimiterRun(Swept(r.buckets, at), r.answers)
  }

  /** The limiter after `es`, from `buckets`, in the order the lock was taken. */
  function Drive(c: Config, buckets: map<string, Bucket>, es: seq<Event>): LimiterRun {
    if es == [] then LimiterRun(buckets, [])
    else Handle(c, Drive(c, buckets, es[..|es| - 1]), es[|es| - 1])
  }

  function Requests(es: seq<Event>): seq<Event> {
    if es == [] then [] else
      var init, e := Requests(es[..|es| - 1]), es[|es| - 1];
      if e.Request? then init + [e] else init
  }

  function InstantsOf(es: seq<Event>, key: string): seq<real> {
    if es == [] then [] else
      var init, e := InstantsOf(es[..|es| - 1], key), es[|es| - 1];
      if e.Request? && e.key == key then init + [e.at] else init
  }

  function AnswersTo(answers: seq<Answer>, key: string): seq<bool> {
    if answers == [] then [] else
      var init, a := AnswersTo(answers[..|answers| - 1], key), answers[|answers| - 1];
      if a.key == key then init + [a.ok] else init
  }

  /** No timestamp is more than `d` older than one that took the lock before it; with `d` zero, clocks are in order. */
  predicate Skewed(es: seq<Event>, d: real) {
    forall i, j | 0 <= i <= j < |es| :: es[i].at - d <= es[j].at
  }

  lemma ServeSnoc(c: Config, ts: seq<real>, now: real)
    ensures var before := Serve(c, ts);
            var (b, ok) := Touch(c, before.bucket, now);
            Serve(c, ts + [now]) == KeyRun(Some(b), before.answers + [ok])
  {
    assert (ts + [now])[..|ts|] == ts;
  }

  lemma HandleForKey(c: Config, r: LimiterRun, e: Event, key: string)
    requires e.Request?
    ensures var r', (b, ok) := Handle(c, r, e), Touch(c, Lookup(r.buckets, e.key), e.at);
            if e.key == key
            then Lookup(r'.buckets, key) == Some(b) && AnswersTo(r'.answers, key) == AnswersTo(r.answers, key) + [ok]
            else && Lookup(r'.buckets, key) == Lookup(r.buckets, key)
                 && AnswersTo(r'.answers, key) == AnswersTo(r.answers, key)
  {
    var r' := Handle(c, r, e);
    assert r'.answers[..|r'.answers| - 1] == r.answers;
  }

  /** In the run `r` a key stands as if it alone had been served at `ts`, the answers `past` having come before. */
  predicate Tracks(c: Config, r: LimiterRun, ts: seq<real>, past: seq<bool>, key: string) {
    && Lookup(r.buckets, key) == Serve(c, ts).bucket
    && Serve(c, ts).answers == past + AnswersTo(r.answers, key)
  }

  lemma HandleTracks(c: Config, r: LimiterRun, e: Event, ts: seq<real>, past: seq<bool>, key: string)
    requires e.Request? && Tracks(c, r, ts, past, key)
    ensures Tracks(c, Handle(c, r, e), if e.key == key then ts + [e.at] else ts, past, key)
  {
    HandleForKey(c, r, e, key);
    ServeSnoc(c, ts, e.at);
  }

  /** Keys do not interfere: between sweeps each key is served as if it were alone, whatever it was served before. */
  lemma {:induction false} KeysAreIndependent(
      c: Config, m: map<string, Bucket>, past: seq<real>, es: seq<Event>, key: string)
    requires Lookup(m, key) == Serve(c, past).bucket
    requires forall e | e in es :: e.Request?
    ensures var r, own := Drive(c, m, es), Serve(c, past + InstantsOf(es, key));
            && Lookup(r.buckets, key) == own.bucket
            && own.answers == Serve(c, past).answers + AnswersTo(r.answers, key)
  {
    if es == [] {
      assert past + InstantsOf(es, key) == past;
    } else {
      var init, e := es[..|es| - 1], es[|es| - 1];
      assert e in es;
      KeysAreIndependent(c, m, past, init, key);
      var ts := past + InstantsOf(init, key);
      HandleTracks(c, Drive(c, m, init), e, ts, Serve(c, past).answers, key);
      assert past + InstantsOf(es, key) == if e.key == key then ts + [e.at] else ts;
    }
  }

  lemma ServedAlone(c: Config, es: seq<Event>, key: string)
    requires forall e | e in es :: e.Request?
    ensures AnswersTo(Drive(c, map[], es).answers, key) == Serve(c, InstantsOf(es, key)).answers
  {
    KeysAreIndependent(c, map[], [], es, key);
    assert [] + InstantsOf(es, key) == InstantsOf(es, key);
    var answers := AnswersTo(Drive(c, map[], es).answers, key);
    assert Serve(c, []).answers + answers == answers;
  }

  /** The sweep at position `n` evicts `key`. */
  predicate Evicts(c: Config, es: seq<Event>, n: nat, key: string)
    requires n < |es|
  {
    es[n].Sweep? && key in Drive(c, map[], es[..n]).buckets && key !in Drive(c, map[], es[..n + 1]).buckets
  }

  /** `cut` is just past the last eviction of `key`, or the start of the run if there was none. */
  ghost predicate LastEvicted(c: Config, es: seq<Event>, key: string, cut: nat) {
    && cut <= |es| && (cut > 0 ==> Evicts(c, es, cut - 1, key))
    && forall n | cut <= n < |es| :: !Evicts(c, es, n, key)
  }

  lemma EvictsInPrefix(c: Config, es: seq<Event>, m: nat, n: nat, key: string)
    requires n < m <= |es|
    ensures Evicts(c, es[..m], n, key) == Evicts(c, es, n, key)
  {
    assert es[..m][..n] == es[..n] && es[..m][..n + 1] == es[..n + 1];
  }

  lemma InstantsSnoc(es: seq<Event>, e: Event, key: string)
    ensures InstantsOf(es + [e], key) == Noted(InstantsOf(es, key), e, key)
  {
    assert (es + [e])[..|es|] == es;
  }

  /** One event later, a bucket that is not evicted is what the requests since the same cut have left. */
  lemma SinceCutStep(c: Config, es: seq<Event>, key: string, cut: nat)
    requires es != [] && cut <= |es| - 1 && !Evicts(c, es, |es| - 1, key)
    requires var init := es[..|es| - 1];
             Lookup(Drive(c, map[], init).buckets, key) == Serve(c, InstantsOf(init[cut..], key)).bucket
    ensures Lookup(Drive(c, map[], es).buckets, key) == Serve(c, InstantsOf(es[cut..], key)).bucket
  {
    var init, e := es[..|es| - 1], es[|es| - 1];
    assert es[cut..] == init[cut..] + [e] && es[..|es|] == es;
    InstantsSnoc(init[cut..], e, key);
    if e.Request? && e.key == key {
      ServeSnoc(c, InstantsOf(init[cut..], key), e.at);
    }
  }

  lemma LastEvictedStays(c: Config, es: seq<Event>, key: string, cut: nat)
    requires es != [] && LastEvicted(c, es[..|es| - 1], key, cut) && !Evicts(c, es, |es| - 1, key)
    ensures LastEvicted(c, es, key, cut)
  {
    var n := |es| - 1;
    forall m: nat | m < n ensures Evicts(c, es[..n], m, key) == Evicts(c, es, m, key) {
      EvictsInPrefix(c, es, n, m, key);
    }
  }

  /** A key's bucket is always what its requests since its last eviction have left. */
  lemma {:induction false} SinceEviction(c: Config, es: seq<Event>, key: string) returns (cut: nat)
    ensures LastEvicted(c, es, key, cut)
    ensures Lookup(Drive(c, map[], es).buckets, key) == Serve(c, InstantsOf(es[cut..], key)).bucket
  {
    if es == [] {
      return 0;
    }
    var n := |es| - 1;
    if Evicts(c, es, n, key) {
      assert es[..n + 1] == es && es[n + 1..] == [];
      return n + 1;
    }
    cut := SinceEviction(c, es[..n], key);
    LastEvictedStays(c, es, key, cut);
    SinceCutStep(c, es, key, cut);
  }

  lemma RateBoundFrom(c: Config, ts: seq<real>, n: nat, from: real, to: real)
    requires c.rate >= 0.0 && n <= |ts| && forall k | n <= k < |ts| :: from <= ts[k] <= to
    ensures var admitted := Admitted(Serve(c, ts).answers[n..]);
            admitted == 0 || admitted as real <= c.burst + Earned(c, to - from)
  {
    var answers := Serve(c, ts).answers;
    assert answers[n..|ts|] == answers[n..];
    RateBound(c, ts, n, |ts|, from, to);
  }

  lemma SuffixOf(prefix: seq<bool>, answers: seq<bool>)
    ensures (prefix + answers)[|prefix|..] == answers
  {
  }

  /**
   The rate bound of the whole limiter, for clocks read before the lock is taken: whatever ran before, in a stretch
   without sweeps a key whose timestamps lie within a span, in any order, is admitted at most burst plus what the
   span refills.
   */
  lemma RateBoundBetweenSweeps(c: Config, before: seq<Event>, es: seq<Event>, key: string, from: real, to: real)
    requires c.rate >= 0.0 && forall e | e in es :: e.Request?
    requires var own := InstantsOf(es, key); forall k | 0 <= k < |own| :: from <= own[k] <= to
    ensures var admitted := Admitted(AnswersTo(Drive(c, Drive(c, map[], before).buckets, es).answers, key));
            admitted == 0 || admitted as real <= c.burst + Earned(c, to - from)
  {
    var m := Drive(c, map[], before).buckets;
    var cut := SinceEviction(c, before, key);
    var past := InstantsOf(before[cut..], key);
    KeysAreIndependent(c, m, past, es, key);
    RateBoundFrom(c, past + InstantsOf(es, key), |past|, from, to);
    SuffixOf(Serve(c, past).answers, AnswersTo(Drive(c, m, es).answers, key));
  }

  /**
   With `hi` the newest timestamp so far, a swept limiter may have dropped the bucket `kept` of a limiter that never
   sweeps, provided every request still to come, stamped no earlier than `hi - d`, would find that bucket full.
   */
  ghost predicate Forgettable(c: Config, d: real, swept: Option<Bucket>, kept: Option<Bucket>, hi: real) {
    && (swept == kept || (swept.None? && kept.Some? && Refilled(c, kept.value, hi - d) >= c.burst))
    && (kept.Some? ==> Refilled(c, kept.value, hi) >= 0.0 && Refilled(c, kept.value, kept.value.last + d) >= 0.0)
  }

  /** What a bucket holds at `now` if nothing caps it. */
  function Refilled(c: Config, b: Bucket, now: real): real {
    b.tokens + Earned(c, now - b.last)
  }

  lemma RefilledLater(c: Config, b: Bucket, now: real, later: real)
    requires c.rate >= 0.0 && now <= later
    ensures Refilled(c, b, now) <= Refilled(c, b, later)
    ensures Refilled(c, b, later) == Refilled(c, b, now) + Earned(c, later - now)
  {
    EarnedMonotone(c, now - b.last, later - b.last);
    EarnedBetween(c, now - b.last, later - b.last);
  }

  lemma ForgettableLater(c: Config, d: real, swept: Option<Bucket>, kept: Option<Bucket>, hi: real, later: real)
    requires c.rate >= 0.0 && hi <= later && Forgettable(c, d, swept, kept, hi)
    ensures Forgettable(c, d, swept, kept, later)
  {
    if kept.Some? {
      RefilledLater(c, kept.value, hi, later);
      RefilledLater(c, kept.value, hi - d, later - d);
    }
  }

  /** A bucket just touched at `now` refills to nothing less than zero by the newest timestamp. */
  lemma TouchedRefills(c: Config, b: Option<Bucket>, now: real, hi: real)
    requires c.rate >= 0.0 && c.burst >= 0.0 && now <= hi && (b.Some? ==> Refilled(c, b.value, hi) >= 0.0)
    ensures Refilled(c, Touch(c, b, now).0, hi) >= 0.0
  {
    var touched := Touch(c, b, now).0;
    RefilledLater(c, touched, now, hi);
    assert Earned(c, 0.0) == 0.0 && Refilled(c, touched, now) == touched.tokens;
    EarnedMonotone(c, 0.0, hi - now);
    if b.Some? {
      RefilledLater(c, b.value, now, hi);
    }
  }

  lemma ForgettableTouch(c: Config, d: real, swept: Option<Bucket>, kept: Option<Bucket>, now: real, hi: real)
    requires c.rate >= 0.0 && c.burst >= 0.0 && Forgettable(c, d, swept, kept, hi) && hi - d <= now <= hi
    ensures Touch(c, swept, now) == Touch(c, kept, now)
    ensures var b := Some(Touch(c, kept, now).0); Forgettable(c, d, b, b, hi)
  {
    if swept != kept {
      RefilledLater(c, kept.value, hi - d, now);
    }
    TouchedRefills(c, kept, now, hi);
    RefilledLater(c, Touch(c, kept, now).0, hi, now + d);
  }

  lemma ForgettableSweep(c: Config, d: real, swept: Option<Bucket>, kept: Option<Bucket>, now: real, hi: real)
    requires c.rate >= 0.0 && Earned(c, IDLE - 2.0 * d) >= c.burst
    requires Forgettable(c, d, swept, kept, hi) && now <= hi
    ensures swept.Some? && swept.value.last < now - IDLE ==> Forgettable(c, d, None, kept, hi)
  {
    if swept.Some? && swept.value.last < now - IDLE {
      var b := swept.value;
      RefilledLater(c, b, b.last + IDLE - d, hi - d);
      EarnedBetween(c, d, IDLE - d);
      assert (IDLE - d) - d == IDLE - 2.0 * d;
      assert Refilled(c, b, b.last + IDLE - d) == b.tokens + Earned(c, IDLE - d);
      assert Refilled(c, b, b.last + d) == b.tokens + Earned(c, d);
    }
  }

  ghost predicate SweptAgrees(c: Config, d: real, swept: LimiterRun, kept: LimiterRun, hi: real) {
    && swept.answers == kept.answers
    && forall k: string :: Forgettable(c, d, Lookup(swept.buckets, k), Lookup(kept.buckets, k), hi)
  }

  lemma SweptAgreesStep(c: Config, d: real, swept: LimiterRun, kept: LimiterRun, hi: real, e: Event, hi': real)
    requires c.rate >= 0.0 && c.burst >= 0.0 && Earned(c, IDLE - 2.0 * d) >= c.burst
    requires SweptAgrees(c, d, swept, kept, hi) && hi <= hi' && hi' - d <= e.at <= hi'
    ensures SweptAgrees(c, d, Handle(c, swept, e), if e.Request? then Handle(c, kept, e) else kept, hi')
  {
    var swept' := Handle(c, swept, e);
    var kept' := if e.Request? then Handle(c, kept, e) else kept;
    forall k: string
      ensures Forgettable(c, d, Lookup(swept'.buckets, k), Lookup(kept'.buckets, k), hi')
      ensures e.Request? && k == e.key
        ==> Touch(c, Lookup(swept.buckets, k), e.at) == Touch(c, Lookup(kept.buckets, k), e.at)
    {
      var s, m := Lookup(swept.buckets, k), Lookup(kept.buckets, k);
      ForgettableLater(c, d, s, m, hi, hi');
      if e.Sweep? {
        ForgettableSweep(c, d, s, m, e.at, hi');
      } else if k == e.key {
        ForgettableTouch(c, d, s, m, e.at, hi');
      }
    }
  }

  /** `hi` is the newest timestamp of `es`. */
  ghost predicate Newest(es: seq<Event>, hi: real) {
    (forall i | 0 <= i < |es| :: es[i].at <= hi) && (es != [] ==> exists i :: 0 <= i < |es| && es[i].at == hi)
  }

  lemma NewestSnoc(es: seq<Event>, hi: real) returns (hi': real)
    requires es != [] && Newest(es[..|es| - 1], hi)
    ensures Newest(es, hi') && hi' >= es[|es| - 1].at && (|es| > 1 ==> hi' >= hi)
    ensures |es| == 1 ==> hi' == es[0].at
  {
    var n := |es| - 1;
    if n == 0 || hi < es[n].at {
      hi' := es[n].at;
    } else {
      hi' := hi;
      var i :| 0 <= i < n && es[..n][i].at == hi;
      assert es[i].at == hi;
    }
  }

  /** While timestamps go back by at most `d`, sweeping loses only buckets that would be full when next asked for. */
  lemma {:induction false} SweptAgreesRun(c: Config, d: real, es: seq<Event>) returns (hi: real)
    requires c.rate >= 0.0 && c.burst >= 0.0 && d >= 0.0 && Earned(c, IDLE - 2.0 * d) >= c.burst
    requires Skewed(es, d)
    ensures Newest(es, hi) && SweptAgrees(c, d, Drive(c, map[], es), Drive(c, map[], Requests(es)), hi)
  {
    if es == [] {
      return 0.0;
    }
    var init, e := es[..|es| - 1], es[|es| - 1];
    var before := SweptAgreesRun(c, d, init);
    hi := NewestSnoc(es, before);
    var swept, kept := Drive(c, map[], init), Drive(c, map[], Requests(init));
    if init == [] {
      assert SweptAgrees(c, d, swept, kept, hi);
      before := hi;
    }
    SweptAgreesStep(c, d, swept, kept, before, e, hi);
    if e.Request? {
      assert Requests(es)[..|Requests(init)|] == Requests(init);
    }
  }

  /** Sweeps inserted anywhere change no answer, as long as timestamps go back by at most `d`. */
  ghost predicate SweepsInvisible(c: Config, d: real) {
    forall es | Skewed(es, d) :: Drive(c, map[], es).answers == Drive(c, map[], Requests(es)).answers
  }

  // A burst below one never admits anything, swept or not.

  lemma {:induction false} NeverAdmits(c: Config, es: seq<Event>)
    requires c.burst < 1.0
    ensures var r := Drive(c, map[], es); forall a | a in r.answers :: !a.ok
    ensures AnswerKeys(Drive(c, map[], es).answers) == RequestKeys(es)
  {
    if es != [] {
      NeverAdmits(c, es[..|es| - 1]);
      var before, after := Drive(c, map[], es[..|es| - 1]), Drive(c, map[], es);
      if es[|es| - 1].Request? {
        assert after.answers[..|after.answers| - 1] == before.answers;
      }
    }
  }

  function AnswerKeys(answers: seq<Answer>): (keys: seq<string>)
    ensures |keys| == |answers| && forall i | 0 <= i < |answers| :: keys[i] == answers[i].key
  {
    if answers == [] then [] else AnswerKeys(answers[..|answers| - 1]) + [answers[|answers| - 1].key]
  }

  function RequestKeys(es: seq<Event>): seq<string> {
    if es == [] then [] else
      var init, e := RequestKeys(es[..|es| - 1]), es[|es| - 1];
      if e.Request? then init + [e.key] else init
  }

  lemma {:induction false} RequestKeysOfRequests(es: seq<Event>)
    ensures RequestKeys(Requests(es)) == RequestKeys(es)
  {
    if es != [] {
      RequestKeysOfRequests(es[..|es| - 1]);
      if es[|es| - 1].Request? {
        assert Requests(es)[..|Requests(es)| - 1] == Requests(es[..|es| - 1]);
      }
    }
  }

  lemma NeverAdmitsEitherWay(c: Config, es: seq<Event>)
    requires c.burst < 1.0
    ensures Drive(c, map[], es).answers == Drive(c, map[], Requests(es)).answers
  {
    NeverAdmits(c, es);
    NeverAdmits(c, Requests(es));
    RequestKeysOfRequests(es);
    var a, b := Drive(c, map[], es).answers, Drive(c, map[], Requests(es)).answers;
    forall i | 0 <= i < |a| ensures a[i] == b[i] {
      assert a[i] in a && b[i] in b;
      assert AnswerKeys(a)[i] == AnswerKeys(b)[i];
    }
  }

  // When ten minutes do not refill the burst, a sweep can hand out a second burst.

  function Volley(n: nat, key: string, at: real): seq<Event> {
    seq(n, _ => Request(key, at))
  }

  function AllGranted(n: nat, key: string): seq<Answer> {
    seq(n, _ => Answer(key, true))
  }

  lemma {:induction false} DriveConcat(c: Config, m: map<string, Bucket>, es: seq<Event>, fs: seq<Event>)
    ensures var first := Drive(c, m, es);
            var second := Drive(c, first.buckets, fs);
            Drive(c, m, es + fs) == LimiterRun(second.buckets, first.answers + second.answers)
  {
    if fs == [] {
      assert es + fs == es;
    } else {
      var n := |fs| - 1;
      DriveConcat(c, m, es, fs[..n]);
      assert (es + fs)[..|es| + n] == es + fs[..n];
    }
  }

  lemma TouchSameInstant(c: Config, tokens: real, at: real)
    requires 1.0 <= tokens <= c.burst
    ensures Touch(c, None, at) == (Bucket(c.burst - 1.0, at), true)
    ensures Touch(c, Some(Bucket(tokens, at)), at) == (Bucket(tokens - 1.0, at), true)
  {
    assert Earned(c, 0.0) == 0.0;
  }

  /** A fresh bucket admits a whole volley of `n <= burst` and is left with the rest. */
  lemma {:induction false} FreshVolley(c: Config, n: nat, key: string, at: real)
    requires n as real <= c.burst
    ensures Drive(c, map[], Volley(n, key, at))
         == LimiterRun(if n == 0 then map[] else map[key := Bucket(c.burst - n as real, at)], AllGranted(n, key))
  {
    if n > 0 {
      var es, m := Volley(n, key, at), n - 1;
      FreshVolley(c, m, key, at);
      assert es[..m] == Volley(m, key, at);
      var before := Drive(c, map[], es[..m]);
      TouchSameInstant(c, c.burst - m as real, at);
      assert Drive(c, map[], es) == Handle(c, before, Request(key, at));
      assert Lookup(before.buckets, key) == if m == 0 then None else Some(Bucket(c.burst - m as real, at));
      assert AllGranted(n, key) == AllGranted(m, key) + [Answer(key, true)];
      assert before.buckets[key := Bucket(c.burst - n as real, at)] == map[key := Bucket(c.burst - n as real, at)];
    }
  }

  /** Ten minutes, less twice what timestamps may go back by, refill the burst; or there is no burst to refill. */
  predicate RefillsInTime(perMinute: int, burst: int, d: real) {
    burst < 1 || (perMinute >= 0 && perMinute as real * (IDLE - 2.0 * d) >= 60.0 * burst as real)
  }

  lemma EarnedPerMinute(perMinute: int, burst: int, seconds: real)
    ensures 60.0 * Earned(Configure(perMinute, burst), seconds) == perMinute as real * seconds
  {
    var p := perMinute as real;
    calc {
      60.0 * (seconds * (p / 60.0));
      seconds * (60.0 * (p / 60.0));
      seconds * p;
    }
  }

  /**
   If the burst is not refilled in time, there are a backward step `back` no longer than `d` and a sweep `at`, later
   than the idle limit, such that `at - 2 * back` is still too short to refill it.
   */
  lemma TooSoonToForget(perMinute: int, burst: int, d: real) returns (back: real, at: real)
    requires d >= 0.0 && !RefillsInTime(perMinute, burst, d)
    ensures 0.0 <= back <= d && back <= 300.0 && at > IDLE
    ensures Earned(Configure(perMinute, burst), at - 2.0 * back) < burst as real
  {
    var p, b := perMinute as real, burst as real;
    if perMinute <= 0 {
      back, at := 0.0, 601.0;
      assert p * 601.0 <= 0.0;
    } else {
      back := if d <= 300.0 then d else 300.0;
      var short := 60.0 * b - p * (IDLE - 2.0 * back);
      assert short > 0.0;
      var extra := short / (2.0 * p);
      at := IDLE + extra;
      assert p * extra == short / 2.0;
      assert p * (at - 2.0 * back) == p * (IDLE - 2.0 * back) + p * extra;
    }
    EarnedPerMinute(perMinute, burst, at - 2.0 * back);
  }

  lemma {:induction false} AnswersToOneKey(answers: seq<Answer>, key: string)
    requires forall a | a in answers :: a.key == key
    ensures |AnswersTo(answers, key)| == |answers|
    ensures forall i | 0 <= i < |answers| :: AnswersTo(answers, key)[i] == answers[i].ok
  {
    if answers != [] {
      AnswersToOneKey(answers[..|answers| - 1], key);
    }
  }

  lemma {:induction false} VolleyInstants(es: seq<Event>, key: string)
    requires forall e | e in es :: e.Request? && e.key == key
    ensures InstantsOf(es, key) == seq(|es|, i requires 0 <= i < |es| => es[i].at)
  {
    if es != [] {
      VolleyInstants(es[..|es| - 1], key);
    }
  }

  lemma {:induction false} AdmittedAllButOne(answers: seq<bool>, k: nat)
    requires forall i | 0 <= i < |answers| && i != k :: answers[i]
    ensures Admitted(answers) >= |answers| - 1 && (k >= |answers| ==> Admitted(answers) == |answers|)
  {
    if answers != [] {
      AdmittedAllButOne(answers[..|answers| - 1], k);
    }
  }

  /** Two volleys of `n` with one request between them: if both are admitted in full, their span refills a volley. */
  lemma TwoVolleysTakeTime(c: Config, ts: seq<real>, n: nat)
    requires n >= 1 && |ts| == 2 * n + 1
    requires forall i | 0 <= i < |ts| && i != n :: Serve(c, ts).answers[i]
    ensures 2.0 * n as real <= c.burst + Earned(c, ts[2 * n] - ts[0])
  {
    var answers, vs := Serve(c, ts).answers, Volumes(c, ts);
    ServeInVolumes(c, ts);
    AdmittedWindow(c.burst, vs, 0, 2 * n);
    AdmittedAllButOne(answers[0..2 * n], n);
    EarnedBetween(c, ts[0], ts[2 * n]);
  }

  /** A volley at `back`, then one request stamped zero. */
  function Opening(n: nat, key: string, back: real): seq<Event> {
    Volley(n, key, back) + [Request(key, 0.0)]
  }

  lemma AfterOpening(c: Config, n: nat, key: string, back: real) returns (b: Bucket, ok: bool)
    requires c.burst == n as real && n >= 1
    ensures b.last == 0.0
    ensures Drive(c, map[], Opening(n, key, back)) == LimiterRun(map[key := b], AllGranted(n, key) + [Answer(key, ok)])
  {
    var es := Opening(n, key, back);
    FreshVolley(c, n, key, back);
    var before := Drive(c, map[], Volley(n, key, back));
    assert es[..n] == Volley(n, key, back);
    var touched := Touch(c, Lookup(before.buckets, key), 0.0);
    b, ok := touched.0, touched.1;
    assert before.buckets[key := b] == map[key := b];
  }

  lemma OneKeyServed(c: Config, es: seq<Event>, key: string)
    requires forall e | e in es :: e.Request? && e.key == key
    requires var answers := Drive(c, map[], es).answers; |answers| == |es| && forall a | a in answers :: a.key == key
    ensures |InstantsOf(es, key)| == |es|
    ensures forall i | 0 <= i < |es| ::
              InstantsOf(es, key)[i] == es[i].at
              && Serve(c, InstantsOf(es, key)).answers[i] == Drive(c, map[], es).answers[i].ok
  {
    VolleyInstants(es, key);
    AnswersToOneKey(Drive(c, map[], es).answers, key);
    ServedAlone(c, es, key);
  }

  /** Two volleys admitted in full, with an answer between them. */
  function TwoGranted(n: nat, key: string, ok: bool): (answers: seq<Answer>)
    ensures |answers| == 2 * n + 1 && forall a | a in answers :: a.key == key
    ensures forall i | 0 <= i < |answers| && i != n :: answers[i].ok
  {
    AllGranted(n, key) + [Answer(key, ok)] + AllGranted(n, key)
  }

  lemma TwoVolleysAt(n: nat, key: string, back: real, at: real)
    requires n >= 1
    ensures var es := Opening(n, key, back) + Volley(n, key, at);
            && |es| == 2 * n + 1 && es[0].at == back && es[2 * n].at == at
            && forall e | e in es :: e.Request? && e.key == key
  {
  }

  lemma AllButOneServed(oks: seq<bool>, answers: seq<Answer>, n: nat)
    requires |oks| == |answers| && forall i | 0 <= i < |oks| :: oks[i] == answers[i].ok
    requires forall i | 0 <= i < |answers| && i != n :: answers[i].ok
    ensures forall i | 0 <= i < |oks| && i != n :: oks[i]
  {
  }

  lemma GrantedTwiceTakesTime(c: Config, es: seq<Event>, n: nat, key: string)
    requires n >= 1 && |es| == 2 * n + 1 && forall e | e in es :: e.Request? && e.key == key
    requires var answers := Drive(c, map[], es).answers;
             && |answers| == |es| && (forall a | a in answers :: a.key == key)
             && forall i | 0 <= i < |answers| && i != n :: answers[i].ok
    ensures 2.0 * n as real <= c.burst + Earned(c, es[2 * n].at - es[0].at)
  {
    OneKeyServed(c, es, key);
    var ts := InstantsOf(es, key);
    AllButOneServed(Serve(c, ts).answers, Drive(c, map[], es).answers, n);
    TwoVolleysTakeTime(c, ts, n);
  }

  /** Both volleys and the request between them, in a row, cannot be answered so while the bucket is kept. */
  lemma KeptDeniesSecondVolley(c: Config, n: nat, key: string, back: real, at: real, ok: bool)
    requires c.burst == n as real && n >= 1 && Earned(c, at - 2.0 * back) < c.burst
    ensures Drive(c, map[], Opening(n, key, back) + Volley(n, key, at - back)).answers != TwoGranted(n, key, ok)
  {
    var es := Opening(n, key, back) + Volley(n, key, at - back);
    if Drive(c, map[], es).answers == TwoGranted(n, key, ok) {
      TwoVolleysAt(n, key, back, at - back);
      assert (at - back) - back == at - 2.0 * back;
      GrantedTwiceTakesTime(c, es, n, key);
    }
  }

  /** With a sweep before the second volley they are. */
  lemma SweptGrantsSecondVolley(c: Config, n: nat, key: string, back: real, at: real) returns (ok: bool)
    requires c.burst == n as real && n >= 1 && at > IDLE
    ensures Drive(c, map[], Opening(n, key, back) + [Sweep(at)] + Volley(n, key, at - back)).answers
         == TwoGranted(n, key, ok)
  {
    var first, second := Opening(n, key, back), Volley(n, key, at - back);
    var b;
    b, ok := AfterOpening(c, n, key, back);
    FreshVolley(c, n, key, at - back);
    var swept := Drive(c, map[], first + [Sweep(at)]);
    assert (first + [Sweep(at)])[..n + 1] == first;
    assert swept == Handle(c, Drive(c, map[], first), Sweep(at));
    assert swept.buckets == map[];
    DriveConcat(c, map[], first + [Sweep(at)], second);
  }

  lemma {:induction false} RequestsConcat(es: seq<Event>, fs: seq<Event>)
    ensures Requests(es + fs) == Requests(es) + Requests(fs)
  {
    if fs == [] {
      assert es + fs == es;
    } else {
      var n := |fs| - 1;
      RequestsConcat(es, fs[..n]);
      assert (es + fs)[..|es| + n] == es + fs[..n];
    }
  }

  lemma {:induction false} RequestsOfRequests(es: seq<Event>)
    requires forall e | e in es :: e.Request?
    ensures Requests(es) == es
  {
    if es != [] {
      RequestsOfRequests(es[..|es| - 1]);
    }
  }

  lemma RequestsAroundSweep(first: seq<Event>, at: real, second: seq<Event>)
    requires forall e | e in first + second :: e.Request?
    ensures Requests(first + [Sweep(at)] + second) == first + second
  {
    assert forall e | e in first || e in second :: e in first + second;
    RequestsOfRequests(first);
    RequestsOfRequests(second);
    RequestsConcat(first + [Sweep(at)], second);
    RequestsConcat(first, [Sweep(at)]);
    assert Requests([Sweep(at)]) == [];
  }

  /**
   A burst spent at `back`, a request stamped `back` earlier, a sweep more than ten minutes after that stamp, and a
   second burst stamped `back` before the sweep: swept, the second burst is admitted in full; kept, it is not.
   */
  lemma SweepsVisible(perMinute: int, burst: int, d: real)
    requires d >= 0.0 && !RefillsInTime(perMinute, burst, d)
    ensures !SweepsInvisible(Configure(perMinute, burst), d)
  {
    var c := Configure(perMinute, burst);
    var back, at := TooSoonToForget(perMinute, burst, d);
    var first, second := Opening(burst, "k", back), Volley(burst, "k", at - back);
    var es := first + [Sweep(at)] + second;
    assert Skewed(es, d);
    RequestsAroundSweep(first, at, second);
    var ok := SweptGrantsSecondVolley(c, burst, "k", back, at);
    KeptDeniesSecondVolley(c, burst, "k", back, at, ok);
    assert Drive(c, map[], es).answers != Drive(c, map[], Requests(es)).answers;
  }

  /**
   Timestamps going back by at most `d`, eviction is unobservable exactly when ten minutes less `2 * d` refill the
   whole burst, or there is no burst at all.
   */
  lemma SweepsInvisibleExactlyWhen(perMinute: int, burst: int, d: real)
    requires d >= 0.0
    ensures SweepsInvisible(Configure(perMinute, burst), d) <==> RefillsInTime(perMinute, burst, d)
  {
    var c := Configure(perMinute, burst);
    if !RefillsInTime(perMinute, burst, d) {
      SweepsVisible(perMinute, burst, d);
    } else {
      EarnedPerMinute(perMinute, burst, IDLE - 2.0 * d);
      forall es: seq<Event> | Skewed(es, d)
        ensures Drive(c, map[], es).answers == Drive(c, map[], Requests(es)).answers
      {
        if burst < 1 {
          NeverAdmitsEitherWay(c, es);
        } else {
          var _ := SweptAgreesRun(c, d, es);
        }
      }
    }
  }

  /** On clocks in order, the condition is that ten times the rate per minute covers the burst. */
  lemma InvisibleOnOrderedClocks(perMinute: int, burst: int)
    ensures SweepsInvisible(Configure(perMinute, burst), 0.0) <==> burst < 1 || 10 * perMinute >= burst
  {
    SweepsInvisibleExactlyWhen(perMinute, burst, 0.0);
    assert perMinute as real * (IDLE - 2.0 * 0.0) == (600 * perMinute) as real;
  }

  /** If nothing bounds how far back timestamps go, sweeps are visible for every limiter that ever admits. */
  lemma VisibleOnUnboundedClocks(perMinute: int, burst: int)
    ensures (forall d: real | d >= 0.0 :: SweepsInvisible(Configure(perMinute, burst), d)) <==> burst < 1
  {
    if burst >= 1 {
      SweepsInvisibleExactlyWhen(perMinute, burst, 300.0);
      assert perMinute as real * (IDLE - 2.0 * 300.0) == 0.0;
    } else {
      forall d: real | d >= 0.0 ensures SweepsInvisible(Configure(perMinute, burst), d) {
        SweepsInvisibleExactlyWhen(perMinute, burst, d);
      }
    }
  }

  /**
   The limiters that guard sign-in and the public endpoints, 10 a minute with burst 5 and 120 a minute with burst 40,
   stay unobservably swept until a timestamp comes more than 285 and 290 seconds late.
   */
  lemma ConfiguredLimiters(d: real)
    requires d >= 0.0
    ensures SweepsInvisible(Configure(10, 5), d) <==> d <= 285.0
    ensures SweepsInvisible(Configure(120, 40), d) <==> d <= 290.0
  {
    SweepsInvisibleExactlyWhen(10, 5, d);
    SweepsInvisibleExactlyWhen(120, 40, d);
  }

  lemma {:induction false} InstantsOfRequests(es: seq<Event>, key: string)
    ensures InstantsOf(Requests(es), key) == InstantsOf(es, key)
    ensures forall e | e in Requests(es) :: e.Request?
  {
    if es != [] {
      InstantsOfRequests(es[..|es| - 1], key);
      if es[|es| - 1].Request? {
        assert Requests(es)[..|Requests(es)| - 1] == Requests(es[..|es| - 1]);
      }
    }
  }

  /** Each key sees the greedy policy on its own history, whatever other keys do and whenever the sweeper runs. */
  ghost predicate GreedyPerKey(c: Config, d: real) {
    forall es, key | Skewed(es, d) :: AnswersTo(Drive(c, map[], es).answers, key) == Greedy(c, InstantsOf(es, key))
  }

  lemma LimiterIsGreedyPerKey(perMinute: int, burst: int, d: real, es: seq<Event>, key: string)
    requires d >= 0.0 && RefillsInTime(perMinute, burst, d) && Skewed(es, d)
    ensures var c := Configure(perMinute, burst);
            AnswersTo(Drive(c, map[], es).answers, key) == Greedy(c, InstantsOf(es, key))
  {
    var c := Configure(perMinute, burst);
    SweepsInvisibleExactlyWhen(perMinute, burst, d);
    InstantsOfRequests(es, key);
    ServedAlone(c, Requests(es), key);
    BucketIsGreedy(c, InstantsOf(es, key));
  }

  lemma GreedyTakesTime(c: Config, ts: seq<real>, n: nat)
    requires n >= 1 && |ts| == 2 * n + 1 && forall i | 0 <= i < |ts| && i != n :: Greedy(c, ts)[i]
    ensures 2.0 * n as real <= c.burst + Earned(c, ts[2 * n] - ts[0])
  {
    BucketIsGreedy(c, ts);
    TwoVolleysTakeTime(c, ts, n);
  }

  lemma SweptInstants(n: nat, key: string, back: real, at: real)
    requires n >= 1
    ensures var ts := InstantsOf(Opening(n, key, back) + [Sweep(at)] + Volley(n, key, at - back), key);
            |ts| == 2 * n + 1 && ts[0] == back && ts[2 * n] == at - back
  {
    var first, second := Opening(n, key, back), Volley(n, key, at - back);
    TwoVolleysAt(n, key, back, at - back);
    RequestsAroundSweep(first, at, second);
    InstantsOfRequests(first + [Sweep(at)] + second, key);
    VolleyInstants(first + second, key);
  }

  /** The greedy policy would not have admitted the second of two such volleys in full. */
  lemma SweptIsNotGreedy(c: Config, n: nat, key: string, back: real, at: real)
    requires c.burst == n as real && n >= 1 && at > IDLE && Earned(c, at - 2.0 * back) < c.burst
    ensures var es := Opening(n, key, back) + [Sweep(at)] + Volley(n, key, at - back);
            AnswersTo(Drive(c, map[], es).answers, key) != Greedy(c, InstantsOf(es, key))
  {
    var ok := SweptGrantsSecondVolley(c, n, key, back, at);
    var granted := TwoGranted(n, key, ok);
    AnswersToOneKey(granted, key);
    AllButOneServed(AnswersTo(granted, key), granted, n);
    SweptInstants(n, key, back, at);
    var ts := InstantsOf(Opening(n, key, back) + [Sweep(at)] + Volley(n, key, at - back), key);
    assert ts[2 * n] - ts[0] == at - 2.0 * back;
    if AnswersTo(granted, key) == Greedy(c, ts) {
      GreedyTakesTime(c, ts, n);
    }
  }

  /** Under the same condition as eviction goes unseen, and under no other, every key sees the greedy policy. */
  lemma GreedyPerKeyExactlyWhen(perMinute: int, burst: int, d: real)
    requires d >= 0.0
    ensures GreedyPerKey(Configure(perMinute, burst), d) <==> RefillsInTime(perMinute, burst, d)
  {
    var c := Configure(perMinute, burst);
    if RefillsInTime(perMinute, burst, d) {
      forall es, key | Skewed(es, d)
        ensures AnswersTo(Drive(c, map[], es).answers, key) == Greedy(c, InstantsOf(es, key))
      {
        LimiterIsGreedyPerKey(perMinute, burst, d, es, key);
      }
    } else {
      var back, at := TooSoonToForget(perMinute, burst, d);
      var es := Opening(burst, "k", back) + [Sweep(at)] + Volley(burst, "k", at - back);
      assert Skewed(es, d);
      SweptIsNotGreedy(c, burst, "k", back, at);
    }
  }

  // ---------------------------------------------------------------- the rate bound across sweeps

  lemma LastOf<T>(xs: seq<T>, ys: seq<T>)
    requires ys != []
    ensures xs + ys == (xs + ys[..|ys| - 1]) + [ys[|ys| - 1]] && ys == ys[..|ys| - 1] + [ys[|ys| - 1]]
  {
  }

  function Noted(ts: seq<real>, e: Event, key: string): seq<real> {
    if e.Request? && e.key == key then ts + [e.at] else ts
  }

  lemma NotedConcat(xs: seq<real>, ys: seq<real>, e: Event, key: string)
    ensures Noted(xs + ys, e, key) == xs + Noted(ys, e, key)
  {
    assert (xs + ys) + [e.at] == xs + (ys + [e.at]);
  }

  lemma {:induction false} InstantsConcat(es: seq<Event>, fs: seq<Event>, key: string)
    ensures InstantsOf(es + fs, key) == InstantsOf(es, key) + InstantsOf(fs, key)
  {
    if fs == [] {
      assert es + fs == es;
    } else {
      var init, e := fs[..|fs| - 1], fs[|fs| - 1];
      InstantsConcat(es, init, key);
      LastOf(es, fs);
      InstantsSnoc(es + init, e, key);
      InstantsSnoc(init, e, key);
      NotedConcat(InstantsOf(es, key), InstantsOf(init, key), e, key);
    }
  }

  function Kept(oks: seq<bool>, a: Answer, key: string): seq<bool> {
    if a.key == key then oks + [a.ok] else oks
  }

  lemma KeptConcat(xs: seq<bool>, ys: seq<bool>, a: Answer, key: string)
    ensures Kept(xs + ys, a, key) == xs + Kept(ys, a, key)
  {
    assert (xs + ys) + [a.ok] == xs + (ys + [a.ok]);
  }

  lemma AnswersSnoc(answers: seq<Answer>, a: Answer, key: string)
    ensures AnswersTo(answers + [a], key) == Kept(AnswersTo(answers, key), a, key)
  {
    assert (answers + [a])[..|answers|] == answers;
  }

  lemma {:induction false} AnswersConcat(xs: seq<Answer>, ys: seq<Answer>, key: string)
    ensures AnswersTo(xs + ys, key) == AnswersTo(xs, key) + AnswersTo(ys, key)
  {
    if ys == [] {
      assert xs + ys == xs;
    } else {
      var init, a := ys[..|ys| - 1], ys[|ys| - 1];
      AnswersConcat(xs, init, key);
      LastOf(xs, ys);
      AnswersSnoc(xs + init, a, key);
      AnswersSnoc(init, a, key);
      KeptConcat(AnswersTo(xs, key), AnswersTo(init, key), a, key);
    }
  }

  lemma {:induction false} ServesNobody(c: Config, ts: seq<real>)
    requires c.burst < 1.0
    ensures forall i | 0 <= i < |ts| :: !Serve(c, ts).answers[i]
  {
    if ts != [] {
      ServesNobody(c, ts[..|ts| - 1]);
    }
  }

  lemma {:induction false} AdmittedNone(answers: seq<bool>)
    requires forall i | 0 <= i < |answers| :: !answers[i]
    ensures Admitted(answers) == 0
  {
    if answers != [] {
      AdmittedNone(answers[..|answers| - 1]);
    }
  }

  /** The answers a key gets in a stretch of a run, sweeps anywhere, are those of one bucket that is never swept. */
  lemma StretchOfOneBucket(perMinute: int, burst: int, d: real, before: seq<Event>, es: seq<Event>, key: string)
    requires d >= 0.0 && RefillsInTime(perMinute, burst, d) && Skewed(before + es, d)
    ensures var c := Configure(perMinute, burst);
            var past, own := InstantsOf(before, key), InstantsOf(es, key);
            AnswersTo(Drive(c, Drive(c, map[], before).buckets, es).answers, key)
            == Serve(c, past + own).answers[|past|..]
  {
    var c := Configure(perMinute, burst);
    var first := Drive(c, map[], before);
    var second := Drive(c, first.buckets, es);
    assert Skewed(before, d) by {
      assert forall i | 0 <= i < |before| :: before[i] == (before + es)[i];
    }
    LimiterIsGreedyPerKey(perMinute, burst, d, before, key);
    LimiterIsGreedyPerKey(perMinute, burst, d, before + es, key);
    InstantsConcat(before, es, key);
    DriveConcat(c, map[], before, es);
    AnswersConcat(first.answers, second.answers, key);
    BucketIsGreedy(c, InstantsOf(before + es, key));
    SuffixOf(AnswersTo(first.answers, key), AnswersTo(second.answers, key));
  }

  /**
   Where eviction goes unseen, the rate bound holds across sweeps: in any stretch of any run a key whose timestamps lie
   within a span, in any order, is admitted at most burst plus what the span refills.
   */
  lemma RateBoundAcrossSweeps(perMinute: int, burst: int, d: real, before: seq<Event>, es: seq<Event>, key: string,
                              from: real, to: real)
    requires d >= 0.0 && RefillsInTime(perMinute, burst, d) && Skewed(before + es, d)
    requires var own := InstantsOf(es, key); forall k | 0 <= k < |own| :: from <= own[k] <= to
    ensures var c := Configure(perMinute, burst);
            var admitted := Admitted(AnswersTo(Drive(c, Drive(c, map[], before).buckets, es).answers, key));
            admitted == 0 || admitted as real <= c.burst + Earned(c, to - from)
  {
    var c := Configure(perMinute, burst);
    var past := InstantsOf(before, key);
    StretchOfOneBucket(perMinute, burst, d, before, es, key);
    if burst < 1 {
      ServesNobody(c, past + InstantsOf(es, key));
      AdmittedNone(Serve(c, past + InstantsOf(es, key)).answers[|past|..]);
    } else {
      RateBoundFrom(c, past + InstantsOf(es, key), |past|, from, to);
    }
  }

  // ---------------------------------------------------------------- the limiter object

  class Limiter {
    var buckets: map<string, Bucket>
    const config: Config

    constructor (perMinute: int, burst: int)
      ensures buckets == map[] && config == Configure(perMinute, burst)
    {
      buckets := map[];
      config := Config(perMinute as real / 60.0, burst as real);
    }

    method Allow(key: string, now: real) returns (ok: bool)
      modifies this`buckets
      ensures LimiterRun(buckets, [Answer(key, ok)]) == Handle(config, LimiterRun(old(buckets), []), Request(key, now))
    {
      var b;
      if key !in buckets {
        b := Bucket(config.burst, now);
      } else {
        b := buckets[key];
        b := b.(tokens := b.tokens + Earned(config, now - b.last));
        if b.tokens > config.burst {
          b := b.(tokens := config.burst);
        }
        b := b.(last := now);
      }
      ok := !(b.tokens < 1.0);
      if ok {
        b := b.(tokens := b.tokens - 1.0);
      }
      buckets := buckets[key := b];
    }

    /** One pass of the background sweeper; the keys come in no particular order. */
    method SweepOnce(now: real)
      modifies this`buckets
      ensures buckets == Swept(old(buckets), now)
      ensures buckets.Keys <= old(buckets).Keys
      ensures forall k | k in old(buckets) :: k in buckets <==> !(old(buckets)[k].last < now - 600.0)
      ensures forall k | k in buckets :: buckets[k] == old(buckets)[k]
    {
      var cutoff := now - IDLE;
      var todo := buckets.Keys;
      while todo != {}
        invariant todo <= buckets.Keys <= old(buckets).Keys
        invariant forall k | k in buckets :: buckets[k] == old(buckets)[k]
        invariant forall k | k in old(buckets) && k !in todo :: k in buckets <==> !(old(buckets)[k].last < cutoff)
        decreases |todo|
      {
        var k :| k in todo;
        todo := todo - {k};
        if buckets[k].last < cutoff {
          buckets := buckets - {k};
        }
      }
    }
  }
}
