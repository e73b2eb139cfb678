/**
 * The schedules that put the working set into a chosen coherence state (init_state), the tests
 * built on them (run_test, flusher_test, read_from_invalid_test), and what they achieve on the
 * coherence machine.
 */
module StateInit {
  import opened Cycles
  import opened PointerChase
  import opened Coherence
  import opened WalkTraces
  import opened Benchmarks

  const M_STATE := 0
  const E_STATE := 1
  const S_STATE := 2
  const I_STATE := 3
  const F_STATE := 5

  type Events = seq<string>

  datatype Sched = Sched(core: nat, bench: Bench, events: Events)

  const READER := Chase(Reader)
  const WRITER := Chase(Writer)

  // ---- schedule builders

  function InitSchedule(ccState: nat, a: nat, b: nat, events: Events): seq<Sched> {
    if ccState == M_STATE then [Sched(a, WRITER, events)]
    else if ccState == E_STATE then [Sched(a, WRITER, []), Sched(a, Flusher, []), Sched(a, READER, events)]
    else if ccState == S_STATE then [Sched(a, WRITER, []), Sched(a, READER, []), Sched(b, READER, [])]
    else if ccState == I_STATE then [Sched(a, WRITER, events), Sched(a, Flusher, events)]
    else if ccState == F_STATE then [Sched(b, WRITER, []), Sched(a, READER, events), Sched(b, Flusher, [])]
    else []
  }

  /**
   * init_state: appends entries that take any line of the working set, whatever its state, to the
   * state InitRow names.
   */
  method InitState(vec: seq<Sched>, ccState: nat, a: nat, b: nat, events: Events) returns (r: seq<Sched>)
    ensures r == vec + InitSchedule(ccState, a, b, events)
    ensures forall row: Row, place: Place {:trigger CallsRow(row, Calls(r[|vec|..]), place)} ::
      a < |row| && b < |row| && !place.Sentinel? ==>
        CallsRow(row, Calls(r[|vec|..]), place) == InitRow(ccState, a, b, row, place.Last?)
  {
    r := vec;
    if ccState == M_STATE {
      r := r + [Sched(a, WRITER, events)];
    } else if ccState == E_STATE {
      r := r + [Sched(a, WRITER, [])];
      r := r + [Sched(a, Flusher, [])];
      r := r + [Sched(a, READER, events)];
    } else if ccState == S_STATE {
      r := r + [Sched(a, WRITER, [])];
      r := r + [Sched(a, READER, [])];
      r := r + [Sched(b, READER, [])];
    } else if ccState == I_STATE {
      r := r + [Sched(a, WRITER, events)];
      r := r + [Sched(a, Flusher, events)];
    } else if ccState == F_STATE {
      r := r + [Sched(b, WRITER, [])];
      r := r + [Sched(a, READER, events)];
      r := r + [Sched(b, Flusher, [])];
    }
    assert r[|vec|..] == InitSchedule(ccState, a, b, events);
    forall row: Row, place: Place | a < |row| && b < |row| && !place.Sentinel?
      ensures CallsRow(row, Calls(InitSchedule(ccState, a, b, events)), place)
           == InitRow(ccState, a, b, row, place.Last?)
    {
      InitVecRow(ccState, a, b, events, row, place);
    }
  }

  datatype TestType =
    | PRODUCER_CONSUMER
    | STORE_ON_MODIFIED | STORE_ON_EXCLUSIVE | STORE_ON_SHARED_OR_FORWARD | STORE_ON_INVALID
    | LOAD_FROM_MODIFIED | LOAD_FROM_EXCLUSIVE | LOAD_FROM_SHARED_OR_FORWARD | LOAD_FROM_INVALID
    | FLUSH

  /** The state that the test type asks init_state for. */
  function Wanted(t: TestType): nat
    requires !t.PRODUCER_CONSUMER? && !t.FLUSH?
  {
    match t
    case STORE_ON_MODIFIED => M_STATE
    case LOAD_FROM_MODIFIED => M_STATE
    case STORE_ON_EXCLUSIVE => E_STATE
    case LOAD_FROM_EXCLUSIVE => E_STATE
    case STORE_ON_SHARED_OR_FORWARD => S_STATE
    case LOAD_FROM_SHARED_OR_FORWARD => S_STATE
    case _ => I_STATE
  }

  function Measured(t: TestType, c: nat, events: Events): Sched {
    if t.LOAD_FROM_MODIFIED? || t.LOAD_FROM_EXCLUSIVE? || t.LOAD_FROM_SHARED_OR_FORWARD? || t.LOAD_FROM_INVALID?
    then Sched(c, READER, events)
    else Sched(c, WRITER, events)
  }

  function Flushers(cores: seq<nat>): seq<Sched> {
    seq(|cores|, i requires 0 <= i < |cores| => Sched(cores[i], Flusher, []))
  }

  /** The schedule vector that run_test hands to the scheduler. */
  function TestSchedule(t: TestType, a: nat, b: nat, c: nat, events: Events): seq<Sched> {
    match t
    case PRODUCER_CONSUMER => [Sched(a, Chase(Producer), events), Sched(c, Chase(Consumer), events)]
    case FLUSH => Flushers([a, b, c]) + [Sched(a, Flusher, [])]
    case _ => Flushers([a, b, c]) + InitSchedule(Wanted(t), a, b, []) + [Measured(t, c, events)]
  }

  predicate Stores(t: TestType) {
    t in {STORE_ON_MODIFIED, STORE_ON_EXCLUSIVE, STORE_ON_SHARED_OR_FORWARD, STORE_ON_INVALID}
  }

  predicate Loads(t: TestType) {
    t in {LOAD_FROM_MODIFIED, LOAD_FROM_EXCLUSIVE, LOAD_FROM_SHARED_OR_FORWARD, LOAD_FROM_INVALID}
  }

  /** The vectors entry by entry: three flushers, the preparation that the name asks for, the measured call. */
  lemma TestVectors(a: nat, b: nat, c: nat, events: Events)
    ensures TestSchedule(PRODUCER_CONSUMER, a, b, c, events)
         == [Sched(a, Chase(Producer), events), Sched(c, Chase(Consumer), events)]
    ensures TestSchedule(FLUSH, a, b, c, events)
         == [Sched(a, Flusher, []), Sched(b, Flusher, []), Sched(c, Flusher, []), Sched(a, Flusher, [])]
    ensures var clean := [Sched(a, Flusher, []), Sched(b, Flusher, []), Sched(c, Flusher, [])];
      var writeA, flushA, readA := Sched(a, Chase(Writer), []), Sched(a, Flusher, []), Sched(a, Chase(Reader), []);
      var readB, store, load :=
        Sched(b, Chase(Reader), []), Sched(c, Chase(Writer), events), Sched(c, Chase(Reader), events);
      && TestSchedule(STORE_ON_MODIFIED, a, b, c, events) == clean + [writeA, store]
      && TestSchedule(STORE_ON_EXCLUSIVE, a, b, c, events) == clean + [writeA, flushA, readA, store]
      && TestSchedule(STORE_ON_SHARED_OR_FORWARD, a, b, c, events) == clean + [writeA, readA, readB, store]
      && TestSchedule(STORE_ON_INVALID, a, b, c, events) == clean + [writeA, flushA, store]
      && TestSchedule(LOAD_FROM_MODIFIED, a, b, c, events) == clean + [writeA, load]
      && TestSchedule(LOAD_FROM_EXCLUSIVE, a, b, c, events) == clean + [writeA, flushA, readA, load]
      && TestSchedule(LOAD_FROM_SHARED_OR_FORWARD, a, b, c, events) == clean + [writeA, readA, readB, load]
      && TestSchedule(LOAD_FROM_INVALID, a, b, c, events) == clean + [writeA, flushA, load]
  {
    assert Flushers([a, b, c]) == [Sched(a, Flusher, []), Sched(b, Flusher, []), Sched(c, Flusher, [])];
  }

  /** Which entries of init_state count events. */
  lemma InitCounts(ccState: nat, a: nat, b: nat, events: Events, i: nat)
    requires i < |InitSchedule(ccState, a, b, events)| && events != []
    ensures InitSchedule(ccState, a, b, events)[i].events in {[], events}
    ensures InitSchedule(ccState, a, b, events)[i].events == events <==>
      ccState == M_STATE || ccState == I_STATE || (ccState == E_STATE && i == 2) || (ccState == F_STATE && i == 1)
  {
  }

  /** The part of run_test that fills vec. */
  method BuildTest(t: TestType, a: nat, b: nat, c: nat, events: Events) returns (vec: seq<Sched>)
    ensures vec == TestSchedule(t, a, b, c, events)
  {
    vec := [Sched(a, Flusher, [])];
    vec := vec + [Sched(b, Flusher, [])];
    vec := vec + [Sched(c, Flusher, [])];
    assert vec == Flushers([a, b, c]);
    match t {
      case PRODUCER_CONSUMER =>
        vec := [];
        vec := vec + [Sched(a, Chase(Producer), events)];
        vec := vec + [Sched(c, Chase(Consumer), events)];
      case STORE_ON_MODIFIED =>
        vec := InitState(vec, M_STATE, a, b, []);
        vec := vec + [Sched(c, WRITER, events)];
      case STORE_ON_EXCLUSIVE =>
        vec := InitState(vec, E_STATE, a, b, []);
        vec := vec + [Sched(c, WRITER, events)];
      case STORE_ON_SHARED_OR_FORWARD =>
        vec := InitState(vec, S_STATE, a, b, []);
        vec := vec + [Sched(c, WRITER, events)];
      case STORE_ON_INVALID =>
        vec := InitState(vec, I_STATE, a, b, []);
        vec := vec + [Sched(c, WRITER, events)];
      case LOAD_FROM_MODIFIED =>
        vec := InitState(vec, M_STATE, a, b, []);
        vec := vec + [Sched(c, READER, events)];
      case LOAD_FROM_EXCLUSIVE =>
        vec := InitState(vec, E_STATE, a, b, []);
        vec := vec + [Sched(c, READER, events)];
      case LOAD_FROM_SHARED_OR_FORWARD =>
        vec := InitState(vec, S_STATE, a, b, []);
        vec := vec + [Sched(c, READER, events)];
      case LOAD_FROM_INVALID =>
        vec := InitState(vec, I_STATE, a, b, []);
        vec := vec + [Sched(c, READER, events)];
      case FLUSH =>
        vec := vec + [Sched(a, Flusher, [])];
    }
  }

  /** The vector of flusher_test. */
  method BuildFlusherTest(a: nat, b: nat, c: nat, events: Events) returns (vec: seq<Sched>)
    ensures vec == FlusherSetup(a, b, c) + [Sched(c, READER, events)]
    ensures vec == [Sched(a, Flusher, []), Sched(b, Flusher, []), Sched(c, Flusher, []), Sched(a, Chase(Writer), []),
                    Sched(a, Chase(Reader), []), Sched(b, Chase(Reader), []), Sched(a, Flusher, []),
                    Sched(c, Chase(Reader), events)]
  {
    vec := [Sched(a, Flusher, [])];
    vec := vec + [Sched(b, Flusher, [])];
    vec := vec + [Sched(c, Flusher, [])];
    assert vec == Flushers([a, b, c]);
    vec := InitState(vec, S_STATE, a, b, []);
    vec := vec + [Sched(a, Flusher, [])];
    vec := vec + [Sched(c, READER, events)];
  }

  function FlusherSetup(a: nat, b: nat, c: nat): seq<Sched> {
    Flushers([a, b, c]) + InitSchedule(S_STATE, a, b, []) + [Sched(a, Flusher, [])]
  }

  /** The vector of read_from_invalid_test. */
  method BuildReadFromInvalidTest(a: nat, b: nat, events: Events) returns (vec: seq<Sched>)
    ensures vec == Flushers([a, b]) + [Sched(b, READER, events)]
    ensures vec == [Sched(a, Flusher, []), Sched(b, Flusher, []), Sched(b, Chase(Reader), events)]
  {
    vec := [Sched(a, Flusher, [])];
    vec := vec + [Sched(b, Flusher, [])];
    assert vec == Flushers([a, b]);
    vec := vec + [Sched(b, READER, events)];
  }

  // ---- running a schedule vector

  function Repeat<T>(x: T, n: nat): (r: seq<T>)
    ensures |r| == n
  {
    seq(n, _ => x)
  }

  function CallOf(s: Sched): Call {
    Call(s.core, s.bench)
  }

  /** The benchmark calls of a priority schedule: each entry warmup times, then once measured. */
  function ScheduleCalls(vec: seq<Sched>, warmup: nat): seq<Call> {
    if vec == [] then []
    else ScheduleCalls(vec[..|vec| - 1], warmup) + Repeat(CallOf(vec[|vec| - 1]), warmup + 1)
  }

  /** One line's state through a list of calls. */
  function CallsRow(row: Row, calls: seq<Call>, place: Place): (r: Row)
    ensures |r| == |row|
  {
    if calls == [] then row
    else
      var last := calls[|calls| - 1];
      CallRow(last.bench, last.core, CallsRow(row, calls[..|calls| - 1], place), place)
  }

  /** The calls of a schedule vector, one per entry. */
  function Calls(vec: seq<Sched>): (calls: seq<Call>)
    ensures |calls| == |vec|
  {
    seq(|vec|, i requires 0 <= i < |vec| => CallOf(vec[i]))
  }

  lemma {:induction false} CallsByLine(u: Layout, row: Row, calls: seq<Call>, l: nat)
    requires u.Valid() && l <= |u.t|
    ensures RowRun(row, CallsTrace(calls, u), l) == CallsRow(row, calls, PlaceOf(u.t, l))
  {
    if calls != [] {
      var front, last := calls[..|calls| - 1], calls[|calls| - 1];
      CallsByLine(u, row, front, l);
      RowRunAppend(row, CallsTrace(front, u), CallTrace(last.bench, last.core, u), l);
      CallEffect(last.bench, last.core, u, CallsRow(row, front, PlaceOf(u.t, l)), l);
    }
  }

  lemma {:induction false} CallsRowAppend(row: Row, x: seq<Call>, y: seq<Call>, place: Place)
    ensures CallsRow(row, x + y, place) == CallsRow(CallsRow(row, x, place), y, place)
  {
    if y == [] {
      assert x + y == x;
    } else {
      CallsRowAppend(row, x, y[..|y| - 1], place);
      assert (x + y)[..|x + y| - 1] == x + y[..|y| - 1];
    }
  }

  lemma CallTwice(b: Bench, core: nat, row: Row, place: Place)
    ensures CallRow(b, core, CallRow(b, core, row, place), place) == CallRow(b, core, row, place)
  {
  }

  lemma {:induction false} RepeatRow(row: Row, call: Call, n: nat, place: Place)
    ensures CallsRow(row, Repeat(call, n + 1), place) == CallRow(call.bench, call.core, row, place)
  {
    assert Repeat(call, n + 1)[..n] == Repeat(call, n);
    if n == 0 {
      assert CallsRow(row, Repeat(call, 0), place) == row;
    } else {
      RepeatRow(row, call, n - 1, place);
      CallTwice(call.bench, call.core, row, place);
    }
  }

  /** Warm-up repetitions do not change the state that a schedule leaves. */
  lemma {:induction false} WarmupIsHarmless(row: Row, vec: seq<Sched>, warmup: nat, place: Place)
    ensures CallsRow(row, ScheduleCalls(vec, warmup), place) == CallsRow(row, Calls(vec), place)
  {
    if vec != [] {
      var front, call := vec[..|vec| - 1], CallOf(vec[|vec| - 1]);
      WarmupIsHarmless(row, front, warmup, place);
      CallsRowAppend(row, ScheduleCalls(front, warmup), Repeat(call, warmup + 1), place);
      RepeatRow(CallsRow(row, Calls(front), place), call, warmup, place);
      assert Calls(vec)[..|vec| - 1] == Calls(front);
    }
  }

  /** The state of line l after a schedule vector, run on a machine in state m. */
  function After(u: Layout, m: Machine, vec: seq<Sched>, warmup: nat, l: nat): (row: Row)
    requires u.Valid() && |m| == |u.t| + 1 && l < |m|
    ensures |row| == |m[l]|
  {
    RunByLine(m, CallsTrace(ScheduleCalls(vec, warmup), u), l);
    Run(m, CallsTrace(ScheduleCalls(vec, warmup), u))[l]
  }

  lemma AfterByLine(u: Layout, m: Machine, vec: seq<Sched>, warmup: nat, l: nat)
    requires u.Valid() && |m| == |u.t| + 1 && l < |m|
    ensures After(u, m, vec, warmup, l) == CallsRow(m[l], Calls(vec), PlaceOf(u.t, l))
  {
    RunByLine(m, CallsTrace(ScheduleCalls(vec, warmup), u), l);
    CallsByLine(u, m[l], ScheduleCalls(vec, warmup), l);
    WarmupIsHarmless(m[l], vec, warmup, PlaceOf(u.t, l));
  }

  lemma VecRowAppend(row: Row, x: seq<Sched>, y: seq<Sched>, place: Place)
    ensures CallsRow(row, Calls(x + y), place) == CallsRow(CallsRow(row, Calls(x), place), Calls(y), place)
  {
    assert Calls(x + y) == Calls(x) + Calls(y);
    CallsRowAppend(row, Calls(x), Calls(y), place);
  }

  /** A vector of one, two or three entries, entry by entry. */
  lemma VecRow3(row: Row, x: Sched, y: Sched, z: Sched, place: Place)
    ensures CallsRow(row, Calls([x]), place) == CallRow(x.bench, x.core, row, place)
    ensures CallsRow(row, Calls([x, y]), place) == CallRow(y.bench, y.core, CallsRow(row, Calls([x]), place), place)
    ensures CallsRow(row, Calls([x, y, z]), place)
         == CallRow(z.bench, z.core, CallsRow(row, Calls([x, y]), place), place)
  {
    assert Calls([x])[..0] == [] && Calls([x, y])[..1] == Calls([x]) && Calls([x, y, z])[..2] == Calls([x, y]);
    assert CallsRow(row, [], place) == row;
  }

  /** The calls of a priority run before the measured call of its last entry. */
  function BeforeMeasured(vec: seq<Sched>, warmup: nat): seq<Call>
    requires vec != []
  {
    ScheduleCalls(vec[..|vec| - 1], warmup) + Repeat(CallOf(vec[|vec| - 1]), warmup)
  }

  /** The state of line l when the measured call of the last entry starts. */
  function AtMeasured(u: Layout, m: Machine, vec: seq<Sched>, warmup: nat, l: nat): (row: Row)
    requires u.Valid() && |m| == |u.t| + 1 && l < |m| && vec != []
    ensures |row| == |m[l]|
  {
    RunByLine(m, CallsTrace(BeforeMeasured(vec, warmup), u), l);
    Run(m, CallsTrace(BeforeMeasured(vec, warmup), u))[l]
  }

  /** A state prepared for the measured call, once its own warm-up calls have run. */
  function Warmed(row: Row, s: Sched, warmup: nat, place: Place): Row {
    if warmup == 0 then row else CallRow(s.bench, s.core, row, place)
  }

  lemma AtMeasuredByLine(u: Layout, m: Machine, front: seq<Sched>, last: Sched, warmup: nat, l: nat)
    requires u.Valid() && |m| == |u.t| + 1 && l < |m|
    ensures AtMeasured(u, m, front + [last], warmup, l)
         == Warmed(CallsRow(m[l], Calls(front), PlaceOf(u.t, l)), last, warmup, PlaceOf(u.t, l))
  {
    var place, warm := PlaceOf(u.t, l), Repeat(CallOf(last), warmup);
    assert (front + [last])[..|front|] == front;
    RunByLine(m, CallsTrace(BeforeMeasured(front + [last], warmup), u), l);
    CallsByLine(u, m[l], ScheduleCalls(front, warmup) + warm, l);
    CallsRowAppend(m[l], ScheduleCalls(front, warmup), warm, place);
    WarmupIsHarmless(m[l], front, warmup, place);
    if warmup > 0 {
      RepeatRow(CallsRow(m[l], Calls(front), place), CallOf(last), warmup - 1, place);
    }
  }

  // ---- what init_state achieves

  /** Cores a and b share the line. */
  function SharedBy(cores: nat, a: nat, b: nat): (row: Row) {
    seq(cores, d => if d == a || d == b then S else I)
  }

  /** What init_state leaves on a line of the working set, whatever the line's state before. */
  function InitRow(ccState: nat, a: nat, b: nat, before: Row, last: bool): Row {
    var cores := |before|;
    if ccState == M_STATE then Only(cores, a, M)
    else if ccState == E_STATE then (if last then Nowhere(cores) else Only(cores, a, E))
    else if ccState == S_STATE then (if last || a == b then Only(cores, a, M) else SharedBy(cores, a, b))
    else if ccState == I_STATE || ccState == F_STATE then Nowhere(cores)
    else before
  }

  lemma InitVecRow(ccState: nat, a: nat, b: nat, events: Events, row: Row, place: Place)
    requires a < |row| && b < |row| && !place.Sentinel?
    ensures CallsRow(row, Calls(InitSchedule(ccState, a, b, events)), place) == InitRow(ccState, a, b, row, place.Last?)
  {
    var x, y, z := Sched(a, WRITER, events), Sched(a, Flusher, events), Sched(a, READER, events);
    VecRow3(row, x, y, z, place);
    VecRow3(row, Sched(a, WRITER, []), Sched(a, Flusher, []), z, place);
    VecRow3(row, Sched(a, WRITER, []), Sched(a, READER, []), Sched(b, READER, []), place);
    VecRow3(row, Sched(b, WRITER, []), z, Sched(b, Flusher, []), place);
    LoadMisses(|row|, a, b);
  }

  lemma LoadMisses(cores: nat, a: nat, b: nat)
    requires a < cores && b < cores
    ensures LoadRow(Nowhere(cores), a) == Only(cores, a, E)
    ensures a != b ==> LoadRow(Only(cores, a, M), b) == SharedBy(cores, a, b)
  {
    assert Only(cores, a, M)[a] == M;
  }

  /** From any state of the machine, for any warm-up, line by line. */
  lemma InitStateReaches(u: Layout, m: Machine, cores: nat, ccState: nat, a: nat, b: nat, events: Events,
                         warmup: nat, l: nat)
    requires u.Valid() && |m| == |u.t| + 1 && l < |u.t| && |m[l]| == cores && a < cores && b < cores
    ensures After(u, m, InitSchedule(ccState, a, b, events), warmup, l)
         == InitRow(ccState, a, b, m[l], l == LastLine(u.t))
  {
    AfterByLine(u, m, InitSchedule(ccState, a, b, events), warmup, l);
    InitVecRow(ccState, a, b, events, m[l], PlaceOf(u.t, l));
  }

  /** The state that the name of ccState promises for a line (F counts as S in MESI terms). */
  function Promised(ccState: nat, a: nat, b: nat, cores: nat): Row
    requires ccState in {M_STATE, E_STATE, S_STATE, I_STATE, F_STATE}
  {
    if ccState == M_STATE then Only(cores, a, M)
    else if ccState == E_STATE then Only(cores, a, E)
    else if ccState == I_STATE then Nowhere(cores)
    else SharedBy(cores, a, b)
  }

  /**
   * The promise is kept on every line of the working set exactly for M_STATE and I_STATE: the
   * reads of E_STATE and S_STATE never reach the last line, and F_STATE ends with a flush.
   */
  lemma InitStateKeepsPromise(u: Layout, m: Machine, cores: nat, ccState: nat, a: nat, b: nat, events: Events,
                              warmup: nat)
    requires u.Valid() && |m| == |u.t| + 1 && a < cores && b < cores
    requires forall l | 0 <= l < |u.t| :: |m[l]| == cores
    requires ccState in {M_STATE, E_STATE, S_STATE, I_STATE, F_STATE}
    ensures (forall l | 0 <= l < |u.t| ::
              After(u, m, InitSchedule(ccState, a, b, events), warmup, l) == Promised(ccState, a, b, cores))
       <==> ccState == M_STATE || ccState == I_STATE
  {
    forall l | 0 <= l < |u.t|
      ensures After(u, m, InitSchedule(ccState, a, b, events), warmup, l)
           == InitRow(ccState, a, b, m[l], l == LastLine(u.t))
    {
      InitStateReaches(u, m, cores, ccState, a, b, events, warmup, l);
    }
    var l := LastLine(u.t);
    assert Promised(ccState, a, b, cores)[a] != InitRow(ccState, a, b, m[l], true)[a]
      || ccState == M_STATE || ccState == I_STATE;
  }

  // ---- the tests built on init_state

  lemma FlushersRow(cores: seq<nat>, row: Row, place: Place)
    requires 2 <= |cores| <= 3
    ensures CallsRow(row, Calls(Flushers(cores)), place) == if place.Sentinel? then row else Nowhere(|row|)
  {
    var s := Flushers(cores);
    if |cores| == 2 {
      VecRow3(row, s[0], s[1], s[1], place);
      assert s == [s[0], s[1]];
    } else {
      VecRow3(row, s[0], s[1], s[2], place);
      assert s == [s[0], s[1], s[2]];
    }
  }

  /** In terms of the state that the test type asks init_state for. */
  lemma RunTestRow(u: Layout, m: Machine, t: TestType, a: nat, b: nat, c: nat, events: Events, warmup: nat, l: nat)
    requires u.Valid() && |m| == |u.t| + 1 && l < |u.t| && a < |m[l]| && b < |m[l]|
    requires !t.PRODUCER_CONSUMER? && !t.FLUSH?
    ensures AtMeasured(u, m, TestSchedule(t, a, b, c, events), warmup, l)
         == Warmed(InitRow(Wanted(t), a, b, Nowhere(|m[l]|), l == LastLine(u.t)), Measured(t, c, events), warmup,
                   PlaceOf(u.t, l))
  {
    var place, front := PlaceOf(u.t, l), Flushers([a, b, c]) + InitSchedule(Wanted(t), a, b, []);
    AtMeasuredByLine(u, m, front, Measured(t, c, events), warmup, l);
    VecRowAppend(m[l], Flushers([a, b, c]), InitSchedule(Wanted(t), a, b, []), place);
    FlushersRow([a, b, c], m[l], place);
    InitVecRow(Wanted(t), a, b, [], Nowhere(|m[l]|), place);
  }

  lemma LastIsMeasured(t: TestType, a: nat, b: nat, c: nat, events: Events)
    requires Loads(t) || Stores(t)
    ensures Measured(t, c, events) == Sched(c, Chase(if Loads(t) then Reader else Writer), events)
    ensures |TestSchedule(t, a, b, c, events)| > 0
    ensures TestSchedule(t, a, b, c, events)[|TestSchedule(t, a, b, c, events)| - 1] == Measured(t, c, events)
  {
  }

  lemma NamedRow(t: TestType, a: nat, b: nat, cores: nat, last: bool) returns (found: Row)
    requires Loads(t) || Stores(t)
    ensures found == InitRow(Wanted(t), a, b, Nowhere(cores), last)
    ensures t == LOAD_FROM_MODIFIED || t == STORE_ON_MODIFIED ==> found == Only(cores, a, M)
    ensures t == LOAD_FROM_EXCLUSIVE || t == STORE_ON_EXCLUSIVE ==>
      found == if last then Nowhere(cores) else Only(cores, a, E)
    ensures t == LOAD_FROM_SHARED_OR_FORWARD || t == STORE_ON_SHARED_OR_FORWARD ==>
      found == if last || a == b then Only(cores, a, M) else SharedBy(cores, a, b)
    ensures t == LOAD_FROM_INVALID || t == STORE_ON_INVALID ==> found == Nowhere(cores)
  {
    found := InitRow(Wanted(t), a, b, Nowhere(cores), last);
  }

  /**
   * What the measured call of each test finds on a line of the working set: found, but for the
   * effect of a warm-up of that call, which run_test does not give it.
   */
  lemma RunTestPrepares(u: Layout, m: Machine, t: TestType, a: nat, b: nat, c: nat, events: Events, warmup: nat, l: nat)
    returns (found: Row)
    requires u.Valid() && |m| == |u.t| + 1 && l < |u.t| && a < |m[l]| && b < |m[l]|
    requires Loads(t) || Stores(t)
    ensures var last := Sched(c, Chase(if Loads(t) then Reader else Writer), events);
      && |TestSchedule(t, a, b, c, events)| > 0
      && TestSchedule(t, a, b, c, events)[|TestSchedule(t, a, b, c, events)| - 1] == last
      && AtMeasured(u, m, TestSchedule(t, a, b, c, events), warmup, l) == Warmed(found, last, warmup, PlaceOf(u.t, l))
    ensures t == LOAD_FROM_MODIFIED || t == STORE_ON_MODIFIED ==> found == Only(|m[l]|, a, M)
    ensures t == LOAD_FROM_EXCLUSIVE || t == STORE_ON_EXCLUSIVE ==>
      found == if l == LastLine(u.t) then Nowhere(|m[l]|) else Only(|m[l]|, a, E)
    ensures t == LOAD_FROM_SHARED_OR_FORWARD || t == STORE_ON_SHARED_OR_FORWARD ==>
      found == if l == LastLine(u.t) || a == b then Only(|m[l]|, a, M) else SharedBy(|m[l]|, a, b)
    ensures t == LOAD_FROM_INVALID || t == STORE_ON_INVALID ==> found == Nowhere(|m[l]|)
  {
    found := NamedRow(t, a, b, |m[l]|, l == LastLine(u.t));
    RunTestRow(u, m, t, a, b, c, events, warmup, l);
    LastIsMeasured(t, a, b, c, events);
  }

  /** Some access of the trace is to line l. */
  ghost predicate Touched(r: seq<Access>, l: nat) {
    exists i | 0 <= i < |r| :: r[i].line == l
  }

  lemma {:induction false} CountedIsTouched(r: seq<Access>, a: Access)
    requires Count(r, a) > 0
    ensures Touched(r, a.line)
  {
    if r[|r| - 1] != a {
      CountedIsTouched(r[..|r| - 1], a);
      var i :| 0 <= i < |r| - 1 && r[..|r| - 1][i].line == a.line;
      assert r[i].line == a.line;
    }
  }

  lemma TouchedInPart(x: seq<Access>, y: seq<Access>, l: nat)
    requires Touched(x + y, l)
    ensures Touched(x, l) || Touched(y, l)
  {
    var i :| 0 <= i < |x + y| && (x + y)[i].line == l;
    if i < |x| { assert x[i].line == l; } else { assert y[i - |x|].line == l; }
  }

  function Accesses(r: seq<Access>, core: nat, l: nat): nat {
    Count(r, Load(core, l)) + Count(r, Store(core, l))
  }

  lemma AccessesAppend(x: seq<Access>, y: seq<Access>, core: nat, l: nat)
    ensures Accesses(x + y, core, l) == Accesses(x, core, l) + Accesses(y, core, l)
  {
    CountAppend(x, y, Load(core, l));
    CountAppend(x, y, Store(core, l));
  }

  lemma {:induction false} TouchedIsCounted(b: Walker, core: nat, p: seq<nat>, hops: nat, l: nat)
    requires hops < |p| && Touched(Walk(b, core, p, hops), l)
    ensures Accesses(Walk(b, core, p, hops), core, l) > 0
  {
    if hops > 0 {
      var front, hop := Walk(b, core, p, hops - 1), Hop(b, core, p, hops - 1);
      AccessesAppend(front, hop, core, l);
      TouchedInPart(front, hop, l);
      if Touched(front, l) { TouchedIsCounted(b, core, p, hops - 1, l); } else { HopTouches(b, core, p, hops - 1, l); }
    }
  }

  lemma HopTouches(b: Walker, core: nat, p: seq<nat>, k: nat, l: nat)
    requires k + 1 < |p| && Touched(Hop(b, core, p, k), l)
    ensures Accesses(Hop(b, core, p, k), core, l) > 0
  {
    CountTwo(Load(core, p[k]), Store(core, p[k + 1]), Load(core, l));
    CountTwo(Load(core, p[k]), Store(core, p[k + 1]), Store(core, l));
    CountTwo(Store(core, p[k]), Load(core, p[k]), Load(core, l));
  }

  /** A reader's call touches every line of the buffer but the last, a writer's call every line. */
  lemma LinesOfCall(b: Walker, core: nat, u: Layout, l: nat)
    requires u.Valid() && l < |u.t| && (b == Reader || b == Writer)
    ensures Touched(CallTrace(Chase(b), core, u), l) <==> b == Writer || l != LastLine(u.t)
  {
    var walk := Walk(b, core, Path(u.t), |u.t|);
    LinesTouched(b, core, u.t, l);
    if Touched(walk, l) { TouchedIsCounted(b, core, Path(u.t), |u.t|, l); }
    if Count(walk, Load(core, l)) > 0 { CountedIsTouched(walk, Load(core, l)); }
    if Count(walk, Store(core, l)) > 0 { CountedIsTouched(walk, Store(core, l)); }
  }

  /** The line is as the name of the test says (SHARED_OR_FORWARD: shared by cores a and b). */
  predicate AsNamed(t: TestType, a: nat, b: nat, row: Row) {
    if t == LOAD_FROM_MODIFIED || t == STORE_ON_MODIFIED then row == Only(|row|, a, M)
    else if t == LOAD_FROM_EXCLUSIVE || t == STORE_ON_EXCLUSIVE then row == Only(|row|, a, E)
    else if t == LOAD_FROM_SHARED_OR_FORWARD || t == STORE_ON_SHARED_OR_FORWARD then row == SharedBy(|row|, a, b)
    else row == Nowhere(|row|)
  }

  /** The tests whose measured call finds every line of the buffer that it touches as named. */
  predicate Ready(t: TestType, a: nat, b: nat, n: nat) {
    match t
    case STORE_ON_EXCLUSIVE => false
    case STORE_ON_SHARED_OR_FORWARD => false
    case LOAD_FROM_SHARED_OR_FORWARD => a != b || n == 1
    case _ => true
  }

  /** Where a test keeps what its name says: on the last line, or on another. */
  predicate NamedAt(t: TestType, a: nat, b: nat, last: bool) {
    match t
    case LOAD_FROM_EXCLUSIVE => !last
    case STORE_ON_EXCLUSIVE => !last
    case LOAD_FROM_SHARED_OR_FORWARD => !last && a != b
    case STORE_ON_SHARED_OR_FORWARD => !last && a != b
    case _ => true
  }

  lemma FoundAsNamed(t: TestType, a: nat, b: nat, found: Row, last: bool)
    requires (Loads(t) || Stores(t)) && a < |found| && b < |found|
    requires t == LOAD_FROM_MODIFIED || t == STORE_ON_MODIFIED ==> found == Only(|found|, a, M)
    requires t == LOAD_FROM_EXCLUSIVE || t == STORE_ON_EXCLUSIVE ==>
      found == if last then Nowhere(|found|) else Only(|found|, a, E)
    requires t == LOAD_FROM_SHARED_OR_FORWARD || t == STORE_ON_SHARED_OR_FORWARD ==>
      found == if last || a == b then Only(|found|, a, M) else SharedBy(|found|, a, b)
    requires t == LOAD_FROM_INVALID || t == STORE_ON_INVALID ==> found == Nowhere(|found|)
    ensures AsNamed(t, a, b, found) <==> NamedAt(t, a, b, last)
  {
    assert Only(|found|, a, E)[a] == E && Only(|found|, a, M)[a] == M && Nowhere(|found|)[a] == I;
    assert SharedBy(|found|, a, b)[a] == S;
  }

  /** If the measured call touches line l at all, it finds the line as the test's name says. */
  ghost predicate MeasuredAsNamed(u: Layout, m: Machine, t: TestType, a: nat, b: nat, c: nat, events: Events, l: nat)
    requires u.Valid() && |m| == |u.t| + 1 && l < |u.t|
  {
    Touched(CallTrace(Chase(if Loads(t) then Reader else Writer), c, u), l) ==>
      && TestSchedule(t, a, b, c, events) != []
      && AsNamed(t, a, b, AtMeasured(u, m, TestSchedule(t, a, b, c, events), 0, l))
  }

  lemma LineReady(u: Layout, m: Machine, t: TestType, a: nat, b: nat, c: nat, events: Events, l: nat)
    requires u.Valid() && |m| == |u.t| + 1 && l < |u.t| && a < |m[l]| && b < |m[l]| && (Loads(t) || Stores(t))
    ensures MeasuredAsNamed(u, m, t, a, b, c, events, l)
       <==> (Loads(t) && l == LastLine(u.t)) || NamedAt(t, a, b, l == LastLine(u.t))
  {
    var found := RunTestPrepares(u, m, t, a, b, c, events, 0, l);
    FoundAsNamed(t, a, b, found, l == LastLine(u.t));
    LinesOfCall(if Loads(t) then Reader else Writer, c, u, l);
  }

  /**
   * The measured loads never touch the line that E_STATE and S_STATE miss, the measured stores
   * do: exactly the tests named by Ready measure what their names say on every line they touch.
   */
  lemma MeasuredLinesReady(u: Layout, m: Machine, cores: nat, t: TestType, a: nat, b: nat, c: nat, events: Events)
    requires u.Valid() && |m| == |u.t| + 1 && a < cores && b < cores
    requires forall l | 0 <= l < |u.t| :: |m[l]| == cores
    requires Loads(t) || Stores(t)
    ensures (forall l | 0 <= l < |u.t| :: MeasuredAsNamed(u, m, t, a, b, c, events, l)) <==> Ready(t, a, b, |u.t|)
  {
    var n, last := |u.t|, LastLine(u.t);
    forall l | 0 <= l < n
      ensures MeasuredAsNamed(u, m, t, a, b, c, events, l) <==> (Loads(t) && l == last) || NamedAt(t, a, b, l == last)
    {
      LineReady(u, m, t, a, b, c, events, l);
    }
    var x := if Stores(t) then last else if last == 0 then 1 else 0;
    assert !Ready(t, a, b, n) ==> x < n && !MeasuredAsNamed(u, m, t, a, b, c, events, x);
  }

  /** read_from_invalid_test starts its measured read with the working set invalid everywhere. */
  lemma ReadFromInvalidPrepares(u: Layout, m: Machine, a: nat, c: nat, events: Events, warmup: nat, l: nat)
    requires u.Valid() && |m| == |u.t| + 1 && l <= |u.t|
    ensures AtMeasured(u, m, Flushers([a, c]) + [Sched(c, READER, events)], warmup, l)
         == Warmed(if l < |u.t| then Nowhere(|m[l]|) else m[l], Sched(c, READER, events), warmup, PlaceOf(u.t, l))
  {
    AtMeasuredByLine(u, m, Flushers([a, c]), Sched(c, READER, events), warmup, l);
    FlushersRow([a, c], m[l], PlaceOf(u.t, l));
  }

  lemma FlusherSetupRow(a: nat, b: nat, c: nat, row: Row, place: Place)
    ensures place.Sentinel? ==>
      CallsRow(row, Calls(FlusherSetup(a, b, c)), place) == LoadRow(LoadRow(LoadRow(row, a), a), b)
    ensures !place.Sentinel? ==> CallsRow(row, Calls(FlusherSetup(a, b, c)), place) == Nowhere(|row|)
  {
    var x, y, z := Flushers([a, b, c]), InitSchedule(S_STATE, a, b, []), Sched(a, Flusher, []);
    VecRowAppend(row, x + y, [z], place);
    VecRowAppend(row, x, y, place);
    FlushersRow([a, b, c], row, place);
    VecRow3(CallsRow(row, Calls(x), place), y[0], y[1], y[2], place);
    VecRow3(CallsRow(row, Calls(x + y), place), z, z, z, place);
  }

  /**
   * So does flusher_test, from any state; but the sentinel, which the measured read loads first,
   * lies outside the flushed range and is still held by core a.
   */
  lemma FlusherTestPrepares(u: Layout, m: Machine, a: nat, b: nat, c: nat, events: Events, warmup: nat, l: nat)
    requires u.Valid() && |m| == |u.t| + 1 && l <= |u.t| && a < |m[l]|
    ensures var row, last := AtMeasured(u, m, FlusherSetup(a, b, c) + [Sched(c, READER, events)], warmup, l),
                             Sched(c, READER, events);
      && (l < |u.t| ==> row == Warmed(Nowhere(|m[l]|), last, warmup, PlaceOf(u.t, l)))
      && (l == |u.t| ==> row[a] != I)
  {
    AtMeasuredByLine(u, m, FlusherSetup(a, b, c), Sched(c, READER, events), warmup, l);
    FlusherSetupRow(a, b, c, m[l], PlaceOf(u.t, l));
  }

  /** Which entries of a test's vector count events, and so print a block of results. */
  lemma OnlyMeasuredCounts(t: TestType, a: nat, b: nat, c: nat, events: Events, i: nat)
    requires i < |TestSchedule(t, a, b, c, events)|
    ensures TestSchedule(t, a, b, c, events)[i].events
         == if t.FLUSH? || (!t.PRODUCER_CONSUMER? && i < |TestSchedule(t, a, b, c, events)| - 1) then [] else events
  {
  }
}
