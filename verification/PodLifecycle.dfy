/**
 The pod backend under the slot table: Start and Stop poll the API server
 until the pod is up or gone. The server is the list of its answers, one per
 poll; the list ends where the deadline strikes.
 */
module PodLifecycle {
  import opened Wrappers

  datatype Condition = Condition(kind: string, status: string)

  datatype InitStatus = InitStatus(name: string, exitCode: Option<int>)

  datatype Pod = Pod(
    phase: string,
    terminating: bool,
    conditions: seq<Condition>,
    inits: seq<InitStatus>,
    waiting: seq<string>)

  datatype Answer = NotFound | Refused | Found(pod: Pod)

  datatype CreateAnswer = Created | Conflict | Rejected

  datatype Action = Get | Create | Delete

  datatype Outcome = Running(pod: Pod) | Failed | TimedOut

  const SYNC_CONTAINER := "catalog-sync"

  const FATAL_REASONS := {
    "ErrImagePull", "ImagePullBackOff", "InvalidImageName", "CreateContainerConfigError", "CrashLoopBackOff"}

  /** The status of the first Ready condition decides. */
  predicate ReadyIn(cs: seq<Condition>) {
    |cs| > 0 && if cs[0].kind == "Ready" then cs[0].status == "True" else ReadyIn(cs[1..])
  }

  predicate Ready(p: Pod) {
    ReadyIn(p.conditions)
  }

  /** The pod will not become ready: failed, its sync failed, or its image or
      process keeps failing. */
  predicate Doomed(p: Pod) {
    || p.phase == "Failed"
    || (exists s :: s in p.inits && s.name == SYNC_CONTAINER && s.exitCode.Some? && s.exitCode.value != 0)
    || (exists r :: r in p.waiting && r in FATAL_REASONS)
  }

  /** Start from the given remaining answers: its actions and its outcome. */
  function StartRun(polls: seq<Answer>, created: bool, create: CreateAnswer): (seq<Action>, Outcome)
  {
    if |polls| == 0 then ([], TimedOut) else
    match polls[0]
    case NotFound =>
      if created then Then([Get], StartRun(polls[1..], true, create))
      else if create.Rejected? then ([Get, Create], Failed)
      else Then([Get, Create], StartRun(polls[1..], true, create))
    case Refused => ([Get], Failed)
    case Found(p) =>
      if p.terminating then Then([Get], StartRun(polls[1..], created, create))
      else if Ready(p) then ([Get], Running(p))
      else if Doomed(p) then ([Get], Failed)
      else Then([Get], StartRun(polls[1..], created, create))
  }

  function Then(first: seq<Action>, rest: (seq<Action>, Outcome)): (seq<Action>, Outcome) {
    (first + rest.0, rest.1)
  }

  lemma {:induction false} ThenThen(a: seq<Action>, b: seq<Action>, r: (seq<Action>, Outcome))
    ensures Then(a, Then(b, r)) == Then(a + b, r)
  {
    assert a + (b + r.0) == (a + b) + r.0;
  }

  method Start(polls: seq<Answer>, create: CreateAnswer) returns (log: seq<Action>, outcome: Outcome)
    ensures (log, outcome) == StartRun(polls, false, create)
  {
    log := [];
    var created := false;
    var i := 0;
    assert polls[0..] == polls && [] + StartRun(polls, false, create).0 == StartRun(polls, false, create).0;
    while i < |polls|
      invariant 0 <= i <= |polls|
      invariant StartRun(polls, false, create) == Then(log, StartRun(polls[i..], created, create))
    {
      assert polls[i..][1..] == polls[i + 1..] && polls[i..][0] == polls[i];
      ThenThen(log, [Get], StartRun(polls[i + 1..], created, create));
      ThenThen(log, [Get, Create], StartRun(polls[i + 1..], true, create));
      assert log + [Get] + [Create] == log + [Get, Create];
      log := log + [Get];
      match polls[i] {
        case NotFound =>
          if !created {
            log := log + [Create];
            if create.Rejected? {
              return log, Failed;
            }
            created := true;
          }
        case Refused => return log, Failed;
        case Found(p) =>
          if p.terminating {
            // Polled again until it is gone.
          } else if Ready(p) {
            return log, Running(p);
          } else if Doomed(p) {
            return log, Failed;
          }
      }
      i := i + 1;
    }
    assert log + [] == log;
    return log, TimedOut;
  }

  function Creates(log: seq<Action>): nat {
    if |log| == 0 then 0 else (if log[0].Create? then 1 else 0) + Creates(log[1..])
  }

  lemma {:induction false} CreatesConcat(a: seq<Action>, b: seq<Action>)
    ensures Creates(a + b) == Creates(a) + Creates(b)
  {
    if |a| == 0 {
      assert a + b == b;
    } else {
      assert (a + b)[1..] == a[1..] + b;
      CreatesConcat(a[1..], b);
    }
  }

  /** One Start creates at most one pod: exactly when some answer it acted on
      was not-found. */
  lemma {:induction false} AtMostOneCreate(polls: seq<Answer>, created: bool, create: CreateAnswer)
    ensures var log := StartRun(polls, created, create).0;
            Creates(log) ==
            if !created && exists i :: 0 <= i < Polled(polls, created, create) && polls[i].NotFound? then 1 else 0
  {
    if |polls| > 0 {
      var rest := polls[1..];
      AtMostOneCreate(rest, created, create);
      AtMostOneCreate(rest, true, create);
      CreatesConcat([Get], StartRun(rest, created, create).0);
      CreatesConcat([Get, Create], StartRun(rest, true, create).0);
      assert Creates([Get]) == 0 && [Get, Create][1..] == [Create] && Creates([Create]) == 1;
      forall i | 0 < i < |polls|
        ensures polls[i] == rest[i - 1]
      {}
      if polls[0].Found? && !created && exists i :: 0 <= i < Polled(polls, created, create) && polls[i].NotFound? {
        var i :| 0 <= i < Polled(polls, created, create) && polls[i].NotFound?;
        assert rest[i - 1].NotFound?;
      }
      if polls[0].Found? && !created && exists i :: 0 <= i < Polled(rest, created, create) && rest[i].NotFound? {
        var i :| 0 <= i < Polled(rest, created, create) && rest[i].NotFound?;
        assert Polled(polls, created, create) > 1 ==> polls[i + 1].NotFound?;
      }
    }
  }

  /** How many answers Start looks at. */
  function Polled(polls: seq<Answer>, created: bool, create: CreateAnswer): (n: nat)
    ensures n <= |polls|
  {
    if |polls| == 0 then 0 else
    match polls[0]
    case NotFound =>
      if !created && create.Rejected? then 1 else 1 + Polled(polls[1..], true, create)
    case Refused => 1
    case Found(p) =>
      if !p.terminating && (Ready(p) || Doomed(p)) then 1 else 1 + Polled(polls[1..], created, create)
  }

  /** Every create follows a not-found answer at once. */
  lemma {:induction false} CreateAfterNotFound(polls: seq<Answer>, created: bool, create: CreateAnswer)
    requires Creates(StartRun(polls, created, create).0) > 0
    ensures !created
    ensures exists i :: 0 <= i < |polls| && polls[i].NotFound?
                        && (forall j | 0 <= j < i :: polls[j].Found?)
                        && Gets(i + 1) + [Create] <= StartRun(polls, created, create).0
  {
    AtMostOneCreate(polls, created, create);
    if polls[0].NotFound? {
      assert Gets(1) + [Create] == [Get, Create];
    } else {
      var rest := polls[1..];
      CreatesConcat([Get], StartRun(rest, created, create).0);
      CreateAfterNotFound(rest, created, create);
      var i :| 0 <= i < |rest| && rest[i].NotFound?
               && (forall j | 0 <= j < i :: rest[j].Found?)
               && Gets(i + 1) + [Create] <= StartRun(rest, created, create).0;
      PrefixMoves(i, StartRun(rest, created, create).0);
      assert polls[i + 1].NotFound?;
      forall j | 0 <= j < i + 1
        ensures polls[j].Found?
      {
        assert j > 0 ==> rest[j - 1].Found?;
      }
    }
  }

  lemma {:induction false} PrefixMoves(i: nat, log: seq<Action>)
    requires Gets(i + 1) + [Create] <= log
    ensures Gets(i + 2) + [Create] <= [Get] + log
  {
    assert [Get] + (Gets(i + 1) + [Create]) == Gets(i + 2) + [Create];
  }

  function Gets(n: nat): seq<Action> {
    seq(n, _ => Get)
  }

  /** A pod is ready iff the first of its conditions of kind Ready says True. */
  lemma {:induction false} ReadyIff(cs: seq<Condition>)
    ensures ReadyIn(cs) <==>
            exists i :: 0 <= i < |cs| && cs[i].kind == "Ready" && cs[i].status == "True"
                        && forall j | 0 <= j < i :: cs[j].kind != "Ready"
  {
    if |cs| > 0 && cs[0].kind != "Ready" {
      ReadyIff(cs[1..]);
      if i :| 0 <= i < |cs| && cs[i].kind == "Ready" && cs[i].status == "True"
              && forall j | 0 <= j < i :: cs[j].kind != "Ready" {
        assert cs[1..][i - 1] == cs[i];
        assert forall j | 0 <= j < i - 1 :: cs[1..][j] == cs[j + 1];
      }
      if ReadyIn(cs[1..]) {
        var i :| 0 <= i < |cs[1..]| && cs[1..][i].kind == "Ready" && cs[1..][i].status == "True"
                 && forall j | 0 <= j < i :: cs[1..][j].kind != "Ready";
        assert cs[i + 1].kind == "Ready";
        assert forall j | 0 <= j < i + 1 :: j == 0 || cs[j] == cs[1..][j - 1];
      }
    }
  }

  /** Start gives up on the answers exactly when the last one it saw was an
      error, a rejected create, or a pod that is neither going nor ready and has
      failed, by its phase, its catalog sync or what its containers wait for. */
  ghost predicate GivesUp(answer: Answer, create: CreateAnswer, created: bool) {
    match answer
    case Refused => true
    case NotFound => !created && create == Rejected
    case Found(p) =>
      && !p.terminating && !Ready(p)
      && (|| p.phase == "Failed"
          || (exists s :: s in p.inits && s.name == "catalog-sync" && s.exitCode.Some? && s.exitCode.value != 0)
          || "ErrImagePull" in p.waiting || "ImagePullBackOff" in p.waiting || "InvalidImageName" in p.waiting
          || "CreateContainerConfigError" in p.waiting || "CrashLoopBackOff" in p.waiting)
  }

  /** One of the first n answers was not-found. */
  ghost predicate Missed(polls: seq<Answer>, n: int) {
    exists i :: 0 <= i < n && i < |polls| && polls[i].NotFound?
  }

  lemma {:induction false} MissedShift(polls: seq<Answer>, n: int)
    requires |polls| > 0 && n >= 0
    ensures Missed(polls, n + 1) <==> polls[0].NotFound? || Missed(polls[1..], n)
  {
    var rest := polls[1..];
    if i :| 0 <= i < n && i < |rest| && rest[i].NotFound? {
      assert polls[i + 1].NotFound?;
    }
    if i :| 0 < i < n + 1 && i < |polls| && polls[i].NotFound? {
      assert rest[i - 1].NotFound?;
    }
  }

  lemma {:induction false} FailedGaveUp(polls: seq<Answer>, created: bool, create: CreateAnswer)
    ensures StartRun(polls, created, create).1 == Failed <==>
            var n := Polled(polls, created, create);
            n > 0 && GivesUp(polls[n - 1], create, created || Missed(polls, n - 1))
  {
    if |polls| > 0 {
      var later := created || polls[0].NotFound?;
      FailedGaveUp(polls[1..], later, create);
      var n := Polled(polls[1..], later, create);
      if n > 0 {
        MissedShift(polls, n - 1);
      }
    }
  }

  /** Start succeeds only with the last pod it saw, and that pod was ready and
      not terminating. */
  lemma {:induction false} StartedIsReady(polls: seq<Answer>, created: bool, create: CreateAnswer)
    requires StartRun(polls, created, create).1.Running?
    ensures var n, p := Polled(polls, created, create), StartRun(polls, created, create).1.pod;
            n > 0 && polls[n - 1] == Found(p) && Ready(p) && !p.terminating
  {
    var rest := polls[1..];
    if polls[0].NotFound? {
      StartedIsReady(rest, true, create);
    } else if StartRun(polls, created, create) != ([Get], Running(polls[0].pod)) {
      StartedIsReady(rest, created, create);
    }
  }

  /** Stop: delete, then poll until the pod is gone. `deleted` is what the
      delete answered. */
  method Stop(deleted: Answer, polls: seq<Answer>) returns (ok: bool)
    ensures ok <==> !deleted.Refused? && exists i :: 0 <= i < |polls| && polls[i].NotFound?
  {
    if deleted.Refused? {
      return false;
    }
    var i := 0;
    while i < |polls|
      invariant 0 <= i <= |polls|
      invariant forall j | 0 <= j < i :: !polls[j].NotFound?
    {
      if polls[i].NotFound? {
        return true;
      }
      i := i + 1;
    }
    return false;
  }
}
