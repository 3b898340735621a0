/**
 The drill-down fan-out of `collectPersons` (internal/http/handlers/usage_env.go):
 one goroutine per job, six semaphore slots, one shared budget, a locked counter.
 Every run is a sequence of single-goroutine steps in an arbitrary order; the
 choice of `select`, the replies and the moment the budget ends are arbitrary too.
 */
module FanOut {
  import opened Wrappers

  const MAX_IN_FLIGHT: nat := 6

  /**
   Where one goroutine stands. `held` says whether it holds a semaphore slot while
   it runs `countMissing`, whose `missing++` is split into a read and a write.
   */
  datatype Pc<R> =
    | Select
    | Check
    | Call
    | Store(reply: R)
    | Lock(held: bool)
    | Read(held: bool)
    | Write(held: bool, seen: nat)
    | Unlock(held: bool)
    | Release
    | Done

  /** A goroutine and its own `results[i]`. */
  datatype Job<R> = Job(pc: Pc<R>, result: Option<R>)

  datatype State<R> = State(
    jobs: seq<Job<R>>,
    slots: nat,        // values in the semaphore channel
    expired: bool,     // ctx.Err() != nil
    mutex: Option<nat>,
    missing: nat)

  datatype Action<R> =
    | Expire
    | TakeSlot(i: nat)
    | GiveUp(i: nat)
    | CheckBudget(i: nat)
    | Answer(i: nat, reply: Option<R>)
    | StoreResult(i: nat)
    | LockMutex(i: nat)
    | ReadMissing(i: nat)
    | WriteMissing(i: nat)
    | UnlockMutex(i: nat)
    | ReleaseSlot(i: nat)

  // ----------------------------------------------------------------------- steps

  predicate Enabled<R>(s: State<R>, a: Action<R>) {
    if a.Expire? then !s.expired
    else
      && a.i < |s.jobs|
      && var pc := s.jobs[a.i].pc;
      match a
      case TakeSlot(_) => pc.Select? && s.slots < MAX_IN_FLIGHT
      case GiveUp(_) => pc.Select? && s.expired
      case CheckBudget(_) => pc.Check?
      case Answer(_, _) => pc.Call?
      case StoreResult(_) => pc.Store?
      case LockMutex(_) => pc.Lock? && s.mutex.None?
      case ReadMissing(_) => pc.Read?
      case WriteMissing(_) => pc.Write?
      case UnlockMutex(_) => pc.Unlock?
      case ReleaseSlot(_) => pc.Release? && s.slots > 0
  }

  function Goto<R>(s: State<R>, i: nat, pc: Pc<R>): State<R>
    requires i < |s.jobs|
  {
    s.(jobs := s.jobs[i := s.jobs[i].(pc := pc)])
  }

  function Apply<R>(s: State<R>, a: Action<R>): State<R>
    requires Enabled(s, a)
  {
    match a
    case Expire => s.(expired := true)
    case TakeSlot(i) => Goto(s, i, Check).(slots := s.slots + 1)
    case GiveUp(i) => Goto(s, i, Lock(false))
    case CheckBudget(i) => Goto(s, i, if s.expired then Lock(true) else Call)
    case Answer(i, reply) => Goto(s, i, if reply.Some? then Store(reply.value) else Lock(true))
    case StoreResult(i) =>
      s.(jobs := s.jobs[i := Job(Release, Some(s.jobs[i].pc.reply))])
    case LockMutex(i) => Goto(s, i, Read(s.jobs[i].pc.held)).(mutex := Some(i))
    case ReadMissing(i) => Goto(s, i, Write(s.jobs[i].pc.held, s.missing))
    case WriteMissing(i) =>
      Goto(s, i, Unlock(s.jobs[i].pc.held)).(missing := s.jobs[i].pc.seen + 1)
    case UnlockMutex(i) =>
      Goto(s, i, if s.jobs[i].pc.held then Release else Done).(mutex := None)
    case ReleaseSlot(i) => Goto(s, i, Done).(slots := s.slots - 1)
  }

  function Init<R>(n: nat): State<R> {
    State(seq(n, _ => Job(Select, None)), 0, false, None, 0)
  }

  /** The runs of `n` goroutines, however they are scheduled. */
  predicate Run<R>(n: nat, t: seq<Action<R>>)
    decreases |t|, 0
  {
    t == [] || (Run(n, t[..|t| - 1]) && Enabled(After(n, t[..|t| - 1]), t[|t| - 1]))
  }

  function After<R>(n: nat, t: seq<Action<R>>): State<R>
    requires Run(n, t)
    decreases |t|, 1
  {
    if t == [] then Init(n) else Apply(After(n, t[..|t| - 1]), t[|t| - 1])
  }

  predicate AllDone<R>(s: State<R>) {
    forall i :: 0 <= i < |s.jobs| ==> s.jobs[i].pc.Done?
  }

  // -------------------------------------------------------------------- counting

  /** Between acquiring a slot and releasing it. */
  function Holding<R>(j: Job<R>): nat {
    match j.pc
    case Select => 0
    case Done => 0
    case Lock(held) => if held then 1 else 0
    case Read(held) => if held then 1 else 0
    case Write(held, _) => if held then 1 else 0
    case Unlock(held) => if held then 1 else 0
    case _ => 1
  }

  /** Has added itself to `missing`. */
  function Counted<R>(j: Job<R>): nat {
    if j.pc.Unlock? || ((j.pc.Release? || j.pc.Done?) && j.result.None?) then 1 else 0
  }

  /** How many steps the goroutine still has in front of it, at most. */
  function Left<R>(j: Job<R>): nat {
    match j.pc
    case Select => 8
    case Check => 7
    case Call => 6
    case Lock(_) => 5
    case Read(_) => 4
    case Write(_, _) => 3
    case Store(_) => 2
    case Unlock(_) => 2
    case Release => 1
    case Done => 0
  }

  function Sum<R>(f: Job<R> -> nat, jobs: seq<Job<R>>): nat {
    if jobs == [] then 0 else Sum(f, jobs[..|jobs| - 1]) + f(jobs[|jobs| - 1])
  }

  lemma {:induction false} SumUpdate<R>(f: Job<R> -> nat, jobs: seq<Job<R>>, i: nat, j: Job<R>)
    requires i < |jobs|
    ensures Sum(f, jobs[i := j]) == Sum(f, jobs) - f(jobs[i]) + f(j)
    ensures f(jobs[i]) <= Sum(f, jobs)
  {
    var n := |jobs| - 1;
    if i == n {
      assert jobs[i := j][..n] == jobs[..n];
    } else {
      assert jobs[i := j][..n] == jobs[..n][i := j];
      SumUpdate(f, jobs[..n], i, j);
    }
  }

  lemma {:induction false} SumZero<R>(f: Job<R> -> nat, jobs: seq<Job<R>>)
    requires forall i :: 0 <= i < |jobs| ==> f(jobs[i]) == 0
    ensures Sum(f, jobs) == 0
  {
    if jobs != [] {
      SumZero(f, jobs[..|jobs| - 1]);
    }
  }

  // ------------------------------------------------------------------- invariant

  predicate Critical<R>(pc: Pc<R>) { pc.Read? || pc.Write? || pc.Unlock? }

  predicate JobOk<R>(s: State<R>, i: nat)
    requires i < |s.jobs|
  {
    var j := s.jobs[i];
    && (Critical(j.pc) <==> s.mutex == Some(i))
    && (j.pc.Write? ==> j.pc.seen == s.missing)
    && (j.result.Some? ==> j.pc.Release? || j.pc.Done?)
  }

  ghost predicate Inv<R>(s: State<R>) {
    && s.slots == Sum(Holding, s.jobs) <= MAX_IN_FLIGHT
    && s.missing == Sum(Counted, s.jobs)
    && (s.mutex.Some? ==> s.mutex.value < |s.jobs|)
    && forall i :: 0 <= i < |s.jobs| ==> JobOk(s, i)
  }

  lemma InitInv<R>(n: nat)
    ensures Inv(Init<R>(n))
    ensures Sum<R>(Left, Init<R>(n).jobs) == 8 * n
  {
    SumZero<R>(Holding, Init<R>(n).jobs);
    SumZero<R>(Counted, Init<R>(n).jobs);
    SumSelect<R>(Init<R>(n).jobs);
  }

  lemma {:induction false} SumSelect<R>(jobs: seq<Job<R>>)
    requires forall i :: 0 <= i < |jobs| ==> jobs[i] == Job(Select, None)
    ensures Sum(Left, jobs) == 8 * |jobs|
  {
    if jobs != [] {
      SumSelect(jobs[..|jobs| - 1]);
    }
  }

  /** Steps left, counting the one the budget can take. */
  function Measure<R>(s: State<R>): nat {
    Sum(Left, s.jobs) + if s.expired then 0 else 1
  }

  lemma StepHolding<R>(s: State<R>, a: Action<R>)
    requires Inv(s) && Enabled(s, a)
    ensures Apply(s, a).slots == Sum(Holding, Apply(s, a).jobs) <= MAX_IN_FLIGHT
  {
    if !a.Expire? {
      var j := Apply(s, a).jobs[a.i];
      assert Apply(s, a).jobs == s.jobs[a.i := j];
      SumUpdate(Holding, s.jobs, a.i, j);
    }
  }

  lemma StepCounted<R>(s: State<R>, a: Action<R>)
    requires Inv(s) && Enabled(s, a)
    ensures Apply(s, a).missing == Sum(Counted, Apply(s, a).jobs)
  {
    if !a.Expire? {
      var j := Apply(s, a).jobs[a.i];
      assert JobOk(s, a.i);
      assert Apply(s, a).jobs == s.jobs[a.i := j];
      SumUpdate(Counted, s.jobs, a.i, j);
    }
  }

  lemma StepMeasure<R>(s: State<R>, a: Action<R>)
    requires Enabled(s, a)
    ensures Measure(Apply(s, a)) < Measure(s)
  {
    if !a.Expire? {
      var j := Apply(s, a).jobs[a.i];
      assert Apply(s, a).jobs == s.jobs[a.i := j];
      SumUpdate(Left, s.jobs, a.i, j);
    }
  }

  lemma StepJob<R>(s: State<R>, a: Action<R>, k: nat)
    requires Inv(s) && Enabled(s, a) && k < |s.jobs|
    ensures k < |Apply(s, a).jobs| && JobOk(Apply(s, a), k)
  {
    assert JobOk(s, k);
    if !a.Expire? {
      assert JobOk(s, a.i);
    }
  }

  /** Every step keeps the invariant and uses up at least one step. */
  lemma StepInv<R>(s: State<R>, a: Action<R>)
    requires Inv(s) && Enabled(s, a)
    ensures Inv(Apply(s, a)) && Measure(Apply(s, a)) < Measure(s)
    ensures |Apply(s, a).jobs| == |s.jobs|
  {
    StepHolding(s, a);
    StepCounted(s, a);
    StepMeasure(s, a);
    forall k | 0 <= k < |s.jobs| ensures JobOk(Apply(s, a), k) {
      StepJob(s, a, k);
    }
  }

  /** In every run: the invariant holds, and the run cannot go on for ever. */
  lemma {:induction false} RunInv<R>(n: nat, t: seq<Action<R>>)
    requires Run(n, t)
    ensures Inv(After(n, t)) && |After(n, t).jobs| == n
    ensures |t| + Measure(After(n, t)) <= 8 * n + 1
  {
    if t == [] {
      InitInv<R>(n);
    } else {
      RunInv(n, t[..|t| - 1]);
      StepInv(After(n, t[..|t| - 1]), t[|t| - 1]);
    }
  }

  /** The semaphore holds one value per goroutine between acquire and release, never more than six. */
  lemma SemaphoreExact<R>(n: nat, t: seq<Action<R>>)
    requires Run(n, t)
    ensures After(n, t).slots == Sum(Holding, After(n, t).jobs) <= 6
  {
    RunInv(n, t);
  }

  /** At most one goroutine is inside `countMissing`, and no increment is lost there. */
  lemma MutualExclusion<R>(n: nat, t: seq<Action<R>>, i: nat, k: nat)
    requires Run(n, t) && i < n && k < n
    ensures |After(n, t).jobs| == n
    ensures Critical(After(n, t).jobs[i].pc) && Critical(After(n, t).jobs[k].pc) ==> i == k
    ensures After(n, t).jobs[i].pc.Write? ==> After(n, t).jobs[i].pc.seen == After(n, t).missing
  {
    RunInv(n, t);
    assert JobOk(After(n, t), i) && JobOk(After(n, t), k);
  }

  lemma RunSnoc<R>(n: nat, t: seq<Action<R>>, a: Action<R>)
    requires Run(n, t) && Enabled(After(n, t), a)
    ensures Run(n, t + [a]) && After(n, t + [a]) == Apply(After(n, t), a)
  {
    assert (t + [a])[..|t|] == t;
  }

  // -------------------------------------------------------------------- progress

  lemma {:induction false} SomeHolder<R>(jobs: seq<Job<R>>) returns (i: nat)
    requires Sum(Holding, jobs) > 0
    ensures i < |jobs| && Holding(jobs[i]) == 1
  {
    var n := |jobs| - 1;
    if Holding(jobs[n]) == 1 {
      i := n;
    } else {
      i := SomeHolder(jobs[..n]);
    }
  }

  /** What goroutine `i` does next, when it is not waiting for anybody. */
  function Next<R>(i: nat, pc: Pc<R>): Action<R> {
    match pc
    case Select => TakeSlot(i)
    case Check => CheckBudget(i)
    case Call => Answer(i, None)
    case Store(_) => StoreResult(i)
    case Lock(_) => LockMutex(i)
    case Read(_) => ReadMissing(i)
    case Write(_, _) => WriteMissing(i)
    case Unlock(_) => UnlockMutex(i)
    case Release => ReleaseSlot(i)
    case Done => ReleaseSlot(i)
  }

  /** A goroutine that is neither queued nor finished can move, or the mutex owner can. */
  lemma HolderMoves<R>(s: State<R>, i: nat) returns (a: Action<R>)
    requires Inv(s) && i < |s.jobs| && !s.jobs[i].pc.Select? && !s.jobs[i].pc.Done?
    ensures Enabled(s, a) && !a.Expire?
  {
    assert JobOk(s, i);
    a := Next(i, s.jobs[i].pc);
    if s.jobs[i].pc.Lock? && s.mutex.Some? {
      assert JobOk(s, s.mutex.value);
      a := Next(s.mutex.value, s.jobs[s.mutex.value].pc);
    } else if s.jobs[i].pc.Release? {
      SumUpdate(Holding, s.jobs, i, s.jobs[i]);
    }
  }

  /** No deadlock: while any goroutine is unfinished, some goroutine can step, budget or not. */
  lemma Progress<R>(n: nat, t: seq<Action<R>>) returns (a: Action<R>)
    requires Run(n, t) && !AllDone(After(n, t))
    ensures !a.Expire? && Run(n, t + [a])
  {
    RunInv(n, t);
    var s := After(n, t);
    var i :| 0 <= i < |s.jobs| && !s.jobs[i].pc.Done?;
    if !s.jobs[i].pc.Select? {
      a := HolderMoves(s, i);
    } else if s.slots < MAX_IN_FLIGHT {
      a := TakeSlot(i);
    } else {
      var k := SomeHolder(s.jobs);
      a := HolderMoves(s, k);
    }
    RunSnoc(n, t, a);
  }

  /** The deferred `<-sem` never blocks. */
  lemma ReleaseNeverBlocks<R>(n: nat, t: seq<Action<R>>, i: nat)
    requires Run(n, t) && i < n
    ensures |After(n, t).jobs| == n
    ensures After(n, t).jobs[i].pc.Release? ==> Enabled(After(n, t), ReleaseSlot(i))
  {
    RunInv(n, t);
    SumUpdate(Holding, After(n, t).jobs, i, After(n, t).jobs[i]);
  }

  // ------------------------------------------------------------- the final numbers

  function Successes<R>(outcomes: seq<Option<R>>): (k: nat)
    ensures k <= |outcomes|
  {
    if outcomes == [] then 0
    else Successes(outcomes[..|outcomes| - 1]) + if outcomes[|outcomes| - 1].Some? then 1 else 0
  }

  function Results<R>(s: State<R>): (r: seq<Option<R>>)
    ensures |r| == |s.jobs|
  {
    seq(|s.jobs|, i requires 0 <= i < |s.jobs| => s.jobs[i].result)
  }

  lemma {:induction false} CountedAtEnd<R>(jobs: seq<Job<R>>, s: State<R>)
    requires s.jobs == jobs && AllDone(s)
    ensures Sum(Counted, jobs) + Successes(Results(s)) == |jobs|
  {
    if jobs != [] {
      var n := |jobs| - 1;
      var front := s.(jobs := jobs[..n]);
      CountedAtEnd(jobs[..n], front);
      assert Results(s)[..n] == Results(front);
    }
  }

  /** After `wg.Wait()`: the semaphore and mutex are free and every job is counted exactly once. */
  lemma FinalCount<R>(n: nat, t: seq<Action<R>>)
    requires Run(n, t) && AllDone(After(n, t))
    ensures After(n, t).slots == 0 && After(n, t).mutex == None
    ensures After(n, t).missing + Successes(Results(After(n, t))) == n
  {
    RunInv(n, t);
    var s := After(n, t);
    SumZero(Holding, s.jobs);
    CountedAtEnd(s.jobs, s);
    forall i | 0 <= i < n ensures s.mutex != Some(i) {
      assert JobOk(s, i);
    }
  }

  // ------------------------------------------------------------ the shared budget

  predicate Skipped<R>(j: Job<R>) {
    !j.pc.Call? && !j.pc.Store? && j.result.None?
  }

  lemma StepSkipped<R>(s: State<R>, a: Action<R>, i: nat)
    requires Enabled(s, a) && i < |s.jobs| && s.expired && Skipped(s.jobs[i])
    ensures Apply(s, a).expired && i < |Apply(s, a).jobs| && Skipped(Apply(s, a).jobs[i])
  {
  }

  /**
   A job that has not passed its budget check when the budget ends never starts
   its call, in any continuation; when it finishes it has been counted missing.
   */
  lemma {:induction false} BudgetStopsQueued<R>(n: nat, t: seq<Action<R>>, u: seq<Action<R>>, i: nat)
    requires Run(n, u) && t <= u && Run(n, t) && i < |After(n, t).jobs|
    requires After(n, t).expired && (After(n, t).jobs[i].pc.Select? || After(n, t).jobs[i].pc.Check?)
    ensures After(n, u).expired && i < |After(n, u).jobs| && Skipped(After(n, u).jobs[i])
    ensures !After(n, u).jobs[i].pc.Call? && After(n, u).jobs[i].result == None
    ensures After(n, u).jobs[i].pc.Done? ==> Counted(After(n, u).jobs[i]) == 1
    decreases |u|
  {
    if |u| == |t| {
      RunInv(n, t);
      assert u == t && JobOk(After(n, t), i);
    } else {
      var front := u[..|u| - 1];
      assert t <= front;
      BudgetStopsQueued(n, t, front, i);
      StepSkipped(After(n, front), u[|u| - 1], i);
    }
  }

  // ------------------------------------------------------- what the actions alone say

  predicate Expires<R>(t: seq<Action<R>>) { exists k :: 0 <= k < |t| && t[k].Expire? }

  predicate IsStop<R>(a: Action<R>) { a.GiveUp? || a.CheckBudget? }

  /** Job `i` met the end of the budget before its call: queued, or right after it got its slot. */
  predicate StoppedByBudget<R>(t: seq<Action<R>>, i: nat) {
    exists k, m :: 0 <= k < m < |t| && t[k].Expire? && IsStop(t[m]) && t[m].i == i
  }

  /** The reply job `i` got, good or bad; `None` when it never made its call. */
  function AnswerOf<R>(t: seq<Action<R>>, i: nat): Option<Option<R>> {
    if t == [] then None
    else
      match t[|t| - 1]
      case Answer(k, reply) => if k == i then Some(reply) else AnswerOf(t[..|t| - 1], i)
      case _ => AnswerOf(t[..|t| - 1], i)
  }

  /** Job `i` made its call. */
  predicate Calls<R>(t: seq<Action<R>>, i: nat) { exists k :: 0 <= k < |t| && t[k].Answer? && t[k].i == i }

  lemma {:induction false} AnswerIsIn<R>(t: seq<Action<R>>, i: nat)
    ensures AnswerOf(t, i).Some? <==> Calls(t, i)
  {
    if t != [] {
      var front := t[..|t| - 1];
      AnswerIsIn(front, i);
      CallsSnoc(t, i);
    }
  }

  lemma CallsSnoc<R>(t: seq<Action<R>>, i: nat)
    requires t != []
    ensures Calls(t, i) <==> Calls(t[..|t| - 1], i) || (t[|t| - 1].Answer? && t[|t| - 1].i == i)
  {
    var front := t[..|t| - 1];
    assert forall k :: 0 <= k < |front| ==> front[k] == t[k];
  }

  /** The calls that failed. */
  function FailedAnswers<R>(t: seq<Action<R>>): nat {
    if t == [] then 0
    else
      match t[|t| - 1]
      case Answer(_, None) => FailedAnswers(t[..|t| - 1]) + 1
      case _ => FailedAnswers(t[..|t| - 1])
  }

  /** The jobs that met the end of the budget. */
  function Stops<R>(t: seq<Action<R>>): nat {
    if t == [] then 0
    else Stops(t[..|t| - 1]) + if IsStop(t[|t| - 1]) && Expires(t[..|t| - 1]) then 1 else 0
  }

  lemma ExpiresSnoc<R>(t: seq<Action<R>>)
    requires t != []
    ensures Expires(t) <==> Expires(t[..|t| - 1]) || t[|t| - 1].Expire?
  {
    var front := t[..|t| - 1];
    assert forall k :: 0 <= k < |front| ==> front[k] == t[k];
  }

  lemma {:induction false} ExpiredExactly<R>(n: nat, t: seq<Action<R>>)
    requires Run(n, t)
    ensures After(n, t).expired <==> Expires(t)
  {
    if t != [] {
      ExpiredExactly(n, t[..|t| - 1]);
      ExpiresSnoc(t);
    }
  }

  lemma StoppedSnoc<R>(t: seq<Action<R>>, i: nat)
    requires t != []
    ensures StoppedByBudget(t[..|t| - 1], i) ==> StoppedByBudget(t, i)
    ensures Expires(t[..|t| - 1]) && IsStop(t[|t| - 1]) && t[|t| - 1].i == i ==> StoppedByBudget(t, i)
  {
    var front := t[..|t| - 1];
    if StoppedByBudget(front, i) {
      var k, m :| 0 <= k < m < |front| && front[k].Expire? && IsStop(front[m]) && front[m].i == i;
      assert t[k].Expire? && IsStop(t[m]) && t[m].i == i;
    }
    if Expires(front) && IsStop(t[|t| - 1]) && t[|t| - 1].i == i {
      var k :| 0 <= k < |front| && front[k].Expire?;
      assert t[k].Expire?;
    }
  }

  /** A goroutine's place in its code, told from its reply and from whether the budget stopped it. */
  predicate Traced<R(==)>(j: Job<R>, answer: Option<Option<R>>, stopped: bool) {
    match j.pc
    case Select => answer == None && j.result == None
    case Check => answer == None && j.result == None
    case Call => answer == None && j.result == None
    case Store(v) => answer == Some(Some(v)) && j.result == None
    case Release => Ended(j, answer, stopped)
    case Done => Ended(j, answer, stopped)
    case _ => j.result == None && Ended(j, answer, stopped)
  }

  predicate Ended<R(==)>(j: Job<R>, answer: Option<Option<R>>, stopped: bool) {
    answer == Some(j.result) || (answer == None && stopped && j.result == None)
  }

  lemma StepTraced<R>(s: State<R>, a: Action<R>, i: nat, answer: Option<Option<R>>, before: bool, after: bool)
    requires Enabled(s, a) && i < |s.jobs| && Traced(s.jobs[i], answer, before)
    requires before ==> after
    requires s.expired && IsStop(a) && a.i == i ==> after
    ensures i < |Apply(s, a).jobs|
    ensures Traced(Apply(s, a).jobs[i], if a.Answer? && a.i == i then Some(a.reply) else answer, after)
  {
  }

  lemma {:induction false} RunTraced<R>(n: nat, t: seq<Action<R>>, i: nat)
    requires Run(n, t) && i < n
    ensures |After(n, t).jobs| == n && Traced(After(n, t).jobs[i], AnswerOf(t, i), StoppedByBudget(t, i))
  {
    RunInv(n, t);
    if t != [] {
      var front := t[..|t| - 1];
      RunTraced(n, front, i);
      ExpiredExactly(n, front);
      StoppedSnoc(t, i);
      StepTraced(After(n, front), t[|t| - 1], i, AnswerOf(front, i), StoppedByBudget(front, i), StoppedByBudget(t, i));
    }
  }

  /**
   A finished job has made its call, and its slot holds the reply, unless the budget
   ended before it gave up waiting or checked the budget.
   */
  lemma OnlyBudgetSkips<R>(n: nat, t: seq<Action<R>>, i: nat)
    requires Run(n, t) && i < n && |After(n, t).jobs| == n && After(n, t).jobs[i].pc.Done?
    ensures AnswerOf(t, i) == Some(After(n, t).jobs[i].result)
            || (AnswerOf(t, i) == None && StoppedByBudget(t, i) && After(n, t).jobs[i].result == None)
  {
    RunTraced(n, t, i);
  }

  /** On its way to `missing`, or there. */
  function Failing<R>(j: Job<R>): nat {
    match j.pc
    case Lock(_) => 1
    case Read(_) => 1
    case Write(_, _) => 1
    case Unlock(_) => 1
    case Release => if j.result.None? then 1 else 0
    case Done => if j.result.None? then 1 else 0
    case _ => 0
  }

  lemma StepFailing<R>(s: State<R>, a: Action<R>)
    requires Enabled(s, a) && Inv(s)
    ensures Sum(Failing, Apply(s, a).jobs) == Sum(Failing, s.jobs) +
            if (a.Answer? && a.reply.None?) || (IsStop(a) && s.expired) then 1 else 0
  {
    if !a.Expire? {
      assert JobOk(s, a.i);
      SumUpdate(Failing, s.jobs, a.i, Apply(s, a).jobs[a.i]);
    }
  }

  lemma {:induction false} FailingByActions<R>(n: nat, t: seq<Action<R>>)
    requires Run(n, t)
    ensures Sum(Failing, After(n, t).jobs) == FailedAnswers(t) + Stops(t)
  {
    if t == [] {
      SumZero(Failing, Init<R>(n).jobs);
    } else {
      var front := t[..|t| - 1];
      FailingByActions(n, front);
      RunInv(n, front);
      ExpiredExactly(n, front);
      StepFailing(After(n, front), t[|t| - 1]);
    }
  }

  lemma {:induction false} DoneCounts<R>(jobs: seq<Job<R>>)
    requires forall i :: 0 <= i < |jobs| ==> jobs[i].pc.Done?
    ensures Sum(Counted, jobs) == Sum(Failing, jobs)
  {
    if jobs != [] {
      DoneCounts(jobs[..|jobs| - 1]);
    }
  }

  /** `missing` is the number of calls that failed plus the number of jobs the budget stopped. */
  lemma MissingExactly<R>(n: nat, t: seq<Action<R>>)
    requires Run(n, t) && AllDone(After(n, t))
    ensures After(n, t).missing == FailedAnswers(t) + Stops(t)
  {
    RunInv(n, t);
    FailingByActions(n, t);
    DoneCounts(After(n, t).jobs);
  }

  lemma {:induction false} NoStops<R>(t: seq<Action<R>>)
    requires !Expires(t)
    ensures Stops(t) == 0
  {
    if t != [] {
      ExpiresSnoc(t);
      NoStops(t[..|t| - 1]);
    }
  }

  /** While the budget lasts every job makes its call, and `missing` counts the calls that failed. */
  lemma NoBudgetNoSkip<R>(n: nat, t: seq<Action<R>>)
    requires Run(n, t) && AllDone(After(n, t)) && !Expires(t)
    ensures forall i: nat :: i < n ==> Calls(t, i)
    ensures After(n, t).missing == FailedAnswers(t)
  {
    MissingExactly(n, t);
    NoStops(t);
    RunInv(n, t);
    forall i: nat | i < n ensures Calls(t, i) {
      OnlyBudgetSkips(n, t, i);
      AnswerIsIn(t, i);
    }
  }

  lemma {:induction false} RunPrefix<R>(n: nat, t: seq<Action<R>>, m: nat)
    requires Run(n, t) && m <= |t|
    ensures Run(n, t[..m])
    decreases |t|
  {
    if m == |t| {
      assert t[..m] == t;
    } else {
      RunPrefix(n, t[..|t| - 1], m);
      assert t[..|t| - 1][..m] == t[..m];
    }
  }

  /** No job makes its call twice. */
  lemma CallsOnce<R>(n: nat, t: seq<Action<R>>, k: nat, m: nat)
    requires Run(n, t) && k < m < |t| && t[k].Answer? && t[m].Answer?
    ensures t[k].i != t[m].i
  {
    var i := t[m].i;
    RunPrefix(n, t, m + 1);
    assert t[..m + 1][..m] == t[..m];
    RunInv(n, t[..m]);
    RunTraced(n, t[..m], i);
    AnswerIsIn(t[..m], i);
    assert t[..m][k] == t[k];
  }

  /** Slots taken and given back, by the actions alone. */
  function SlotsOut<R>(t: seq<Action<R>>): int {
    if t == [] then 0
    else
      SlotsOut(t[..|t| - 1]) +
      match t[|t| - 1]
      case TakeSlot(_) => 1
      case ReleaseSlot(_) => -1
      case _ => 0
  }

  /** Never more than six slots are out, and a waiting job can take one while fewer are. */
  lemma {:induction false} SixSlots<R>(n: nat, t: seq<Action<R>>)
    requires Run(n, t)
    ensures After(n, t).slots == SlotsOut(t) <= 6
    ensures forall i: nat :: i < |After(n, t).jobs| && After(n, t).jobs[i].pc.Select? && SlotsOut(t) < 6 ==>
              Enabled(After(n, t), TakeSlot(i))
  {
    if t != [] {
      SixSlots(n, t[..|t| - 1]);
    }
    RunInv(n, t);
  }

  // ------------------------------------------------ only the outcomes matter

  /** The reply job `i` got in run `t`, if it got a good one. */
  function Replied<R>(t: seq<Action<R>>, i: nat): Option<R> {
    if t == [] then None
    else
      match t[|t| - 1]
      case Answer(k, reply) => if k == i then reply else Replied(t[..|t| - 1], i)
      case _ => Replied(t[..|t| - 1], i)
  }

  /** What job `i` carries or has stored is the reply to its own call. */
  ghost predicate OwnReply<R>(j: Job<R>, replied: Option<R>) {
    match j.pc
    case Store(v) => replied == Some(v)
    case Release => j.result == replied
    case Done => j.result == replied
    case _ => replied == None
  }

  lemma StepReply<R>(s: State<R>, a: Action<R>, i: nat, replied: Option<R>)
    requires Enabled(s, a) && i < |s.jobs| && OwnReply(s.jobs[i], replied)
    requires s.jobs[i].result.Some? ==> s.jobs[i].pc.Release? || s.jobs[i].pc.Done?
    ensures i < |Apply(s, a).jobs|
    ensures OwnReply(Apply(s, a).jobs[i], if a.Answer? && a.i == i then a.reply else replied)
  {
  }

  lemma {:induction false} RepliesLand<R>(n: nat, t: seq<Action<R>>, i: nat)
    requires Run(n, t) && i < n
    ensures |After(n, t).jobs| == n && OwnReply(After(n, t).jobs[i], Replied(t, i))
  {
    RunInv(n, t);
    if t != [] {
      var front := t[..|t| - 1];
      RepliesLand(n, front, i);
      RunInv(n, front);
      assert JobOk(After(n, front), i);
      StepReply(After(n, front), t[|t| - 1], i, Replied(front, i));
    }
  }

  function Outcomes<R>(n: nat, t: seq<Action<R>>): (r: seq<Option<R>>)
    ensures |r| == n
  {
    seq(n, i requires 0 <= i < n => Replied(t, i))
  }

  /** When all are done, slot `i` holds the reply to job `i`'s own call, or nothing. */
  lemma SlotsAreOutcomes<R>(n: nat, t: seq<Action<R>>)
    requires Run(n, t) && AllDone(After(n, t))
    ensures Results(After(n, t)) == Outcomes(n, t)
  {
    RunInv(n, t);
    forall i | 0 <= i < n ensures Results(After(n, t))[i] == Replied(t, i) {
      RepliesLand(n, t, i);
    }
  }

  /** Two finished runs with the same outcomes agree, whatever their completion orders. */
  lemma OrderIrrelevant<R>(n: nat, t: seq<Action<R>>, u: seq<Action<R>>)
    requires Run(n, t) && AllDone(After(n, t)) && Run(n, u) && AllDone(After(n, u))
    requires Outcomes(n, t) == Outcomes(n, u)
    ensures Results(After(n, t)) == Results(After(n, u)) && After(n, t).missing == After(n, u).missing
  {
    SlotsAreOutcomes(n, t);
    SlotsAreOutcomes(n, u);
    FinalCount(n, t);
    FinalCount(n, u);
  }

  // ------------------------------------------- one goroutine after the other

  /** All the steps of job `i`, taken without interruption. */
  function Alone<R>(i: nat, outcome: Option<R>): seq<Action<R>> {
    [TakeSlot(i), CheckBudget(i), Answer(i, outcome)] +
    if outcome.Some? then [StoreResult(i), ReleaseSlot(i)]
    else [LockMutex(i), ReadMissing(i), WriteMissing(i), UnlockMutex(i), ReleaseSlot(i)]
  }

  /** The sequential loop over the jobs with the given outcomes. */
  function Loop<R>(outcomes: seq<Option<R>>): seq<Action<R>> {
    if outcomes == [] then []
    else
      var k := |outcomes| - 1;
      Loop(outcomes[..k]) + Alone(k, outcomes[k])
  }

  /** The first jobs are finished with their outcomes, the rest have not started. */
  function Halfway<R>(n: nat, outcomes: seq<Option<R>>): State<R>
    requires |outcomes| <= n
  {
    State(
      seq(n, i requires 0 <= i < n =>
        if i < |outcomes| then Job(Done, outcomes[i]) else Job(Select, None)),
      0, false, None, |outcomes| - Successes(outcomes))
  }

  lemma StoringTail<R>(n: nat, t: seq<Action<R>>, i: nat, v: R)
    requires Run(n, t) && i < |After(n, t).jobs|
    requires After(n, t).jobs[i] == Job(Store(v), None) && After(n, t).slots > 0
    ensures var s, u := After(n, t), t + [StoreResult(i), ReleaseSlot(i)];
            Run(n, u) &&
            After(n, u) == s.(jobs := s.jobs[i := Job(Done, Some(v))], slots := s.slots - 1)
  {
    var s := After(n, t);
    RunSnoc(n, t, StoreResult(i));
    RunSnoc(n, t + [StoreResult(i)], ReleaseSlot(i));
    var u := t + [StoreResult(i)] + [ReleaseSlot(i)];
    assert u == t + [StoreResult(i), ReleaseSlot(i)];
    assert After(n, u).jobs == s.jobs[i := Job(Done, Some(v))];
  }

  /** `missing++` under the lock, undisturbed. */
  lemma Increment<R>(n: nat, t: seq<Action<R>>, i: nat)
    requires Run(n, t) && i < |After(n, t).jobs|
    requires After(n, t).jobs[i] == Job(Lock(true), None) && After(n, t).mutex.None?
    ensures var s, u := After(n, t), t + [LockMutex(i), ReadMissing(i), WriteMissing(i)];
            Run(n, u) &&
            After(n, u) == s.(jobs := s.jobs[i := Job(Unlock(true), None)], mutex := Some(i),
                              missing := s.missing + 1)
  {
    var s := After(n, t);
    var t1 := t + [LockMutex(i)];
    var t2 := t1 + [ReadMissing(i)];
    var t3 := t2 + [WriteMissing(i)];
    RunSnoc(n, t, LockMutex(i));
    RunSnoc(n, t1, ReadMissing(i));
    RunSnoc(n, t2, WriteMissing(i));
    assert After(n, t3).jobs == s.jobs[i := Job(Unlock(true), None)];
    assert t3 == t + [LockMutex(i), ReadMissing(i), WriteMissing(i)];
  }

  lemma CountingTail<R>(n: nat, t: seq<Action<R>>, i: nat)
    requires Run(n, t) && i < |After(n, t).jobs|
    requires After(n, t).jobs[i] == Job(Lock(true), None)
    requires After(n, t).slots > 0 && After(n, t).mutex.None?
    ensures var s := After(n, t);
            var u := t + [LockMutex(i), ReadMissing(i), WriteMissing(i), UnlockMutex(i), ReleaseSlot(i)];
            Run(n, u) &&
            After(n, u) == s.(jobs := s.jobs[i := Job(Done, None)], slots := s.slots - 1,
                              missing := s.missing + 1)
  {
    var s := After(n, t);
    var t3 := t + [LockMutex(i), ReadMissing(i), WriteMissing(i)];
    var t4 := t3 + [UnlockMutex(i)];
    var t5 := t4 + [ReleaseSlot(i)];
    Increment(n, t, i);
    RunSnoc(n, t3, UnlockMutex(i));
    RunSnoc(n, t4, ReleaseSlot(i));
    assert After(n, t5).jobs == s.jobs[i := Job(Done, None)];
    assert t5 == t + [LockMutex(i), ReadMissing(i), WriteMissing(i), UnlockMutex(i), ReleaseSlot(i)];
  }

  /** The first three steps of a job run alone. */
  lemma Called<R>(n: nat, t: seq<Action<R>>, i: nat, outcome: Option<R>)
    requires Run(n, t) && i < |After(n, t).jobs| && After(n, t).jobs[i] == Job(Select, None)
    requires After(n, t).slots == 0 && !After(n, t).expired
    ensures var s, u := After(n, t), t + [TakeSlot(i), CheckBudget(i), Answer(i, outcome)];
            var pc := if outcome.Some? then Store(outcome.value) else Lock(true);
            Run(n, u) && After(n, u) == s.(jobs := s.jobs[i := Job(pc, None)], slots := 1)
  {
    var t1 := t + [TakeSlot(i)];
    var t2 := t1 + [CheckBudget(i)];
    var t3 := t2 + [Answer(i, outcome)];
    RunSnoc(n, t, TakeSlot(i));
    RunSnoc(n, t1, CheckBudget(i));
    RunSnoc(n, t2, Answer(i, outcome));
    assert t3 == t + [TakeSlot(i), CheckBudget(i), Answer(i, outcome)];
  }

  /** A job run alone, from a state in which nothing else is under way. */
  lemma AloneRuns<R>(n: nat, t: seq<Action<R>>, i: nat, outcome: Option<R>)
    requires Run(n, t) && i < |After(n, t).jobs| && After(n, t).jobs[i] == Job(Select, None)
    requires After(n, t).slots == 0 && !After(n, t).expired && After(n, t).mutex.None?
    ensures Run(n, t + Alone(i, outcome))
    ensures var s := After(n, t);
            After(n, t + Alone(i, outcome)) ==
            s.(jobs := s.jobs[i := Job(Done, outcome)],
               missing := s.missing + if outcome.Some? then 0 else 1)
  {
    var s := After(n, t);
    var head, tail := Alone(i, outcome)[..3], Alone(i, outcome)[3..];
    assert head == [TakeSlot(i), CheckBudget(i), Answer(i, outcome)];
    Called(n, t, i, outcome);
    if outcome.Some? {
      StoringTail(n, t + head, i, outcome.value);
      assert tail == [StoreResult(i), ReleaseSlot(i)];
    } else {
      CountingTail(n, t + head, i);
      assert tail == [LockMutex(i), ReadMissing(i), WriteMissing(i), UnlockMutex(i), ReleaseSlot(i)];
    }
    assert t + head + tail == t + Alone(i, outcome);
    assert After(n, t + head + tail).jobs == s.jobs[i := Job(Done, outcome)];
  }

  lemma {:induction false} LoopRuns<R>(n: nat, outcomes: seq<Option<R>>)
    requires |outcomes| <= n
    ensures Run(n, Loop(outcomes)) && After(n, Loop(outcomes)) == Halfway(n, outcomes)
  {
    if outcomes == [] {
      assert Init<R>(n).jobs == Halfway(n, outcomes).jobs;
    } else {
      var k := |outcomes| - 1;
      LoopRuns(n, outcomes[..k]);
      var s := Halfway(n, outcomes[..k]);
      AloneRuns(n, Loop(outcomes[..k]), k, outcomes[k]);
      assert s.jobs[k := Job(Done, outcomes[k])] == Halfway(n, outcomes).jobs;
    }
  }

  /**
   Whatever a concurrent run ends with, the sequential loop over its outcomes ends
   with too: the same `results`, the same `missing`.
   */
  lemma RefinesSequentialLoop<R>(n: nat, t: seq<Action<R>>)
    requires Run(n, t) && AllDone(After(n, t))
    ensures var u := Loop(Outcomes(n, t));
            && Run(n, u) && AllDone(After(n, u))
            && Results(After(n, u)) == Results(After(n, t))
            && After(n, u).missing == After(n, t).missing
  {
    SlotsAreOutcomes(n, t);
    FinalCount(n, t);
    LoopRuns(n, Outcomes(n, t));
    assert Results(Halfway(n, Outcomes(n, t))) == Outcomes(n, t);
  }
}
