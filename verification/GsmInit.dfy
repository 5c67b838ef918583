/** The restartable modem initialisation: a list of commands with skip flags and a failure budget. */
module GsmInit {
  /** The skip flags mark the first `done` commands and no others. */
  ghost predicate IsPrefix(skip: seq<bool>, done: nat) {
    done <= |skip| && forall k :: 0 <= k < |skip| ==> (skip[k] <==> k < done)
  }

  /** One command sent to the modem, and whether its answer was the expected one. */
  datatype Attempt = Attempt(command: nat, ok: bool)

  /** The commands that succeeded, in the order of success. */
  ghost function Succeeded(log: seq<Attempt>): seq<nat> {
    if log == [] then []
    else Succeeded(log[..|log| - 1]) + if log[|log| - 1].ok then [log[|log| - 1].command] else []
  }

  ghost function Failures(log: seq<Attempt>): nat {
    if log == [] then 0 else Failures(log[..|log| - 1]) + if log[|log| - 1].ok then 0 else 1
  }

  /** The commands from..to-1 in list order. */
  function Range(from: nat, to: nat): seq<nat>
    requires from <= to
  {
    seq(to - from, i requires 0 <= i < to - from => from + i)
  }

  /** The log of a run against `answers` in which commands from..to-1 succeeded, among nfail failures. */
  ghost predicate Logged(log: seq<Attempt>, from: nat, to: nat, nfail: nat, answers: nat -> bool) {
    && from <= to && Succeeded(log) == Range(from, to)
    && Failures(log) == nfail && |log| == to - from + nfail
    && forall n :: 0 <= n < |log| ==> log[n].ok == answers(n)
  }

  lemma LogFailure(log: seq<Attempt>, from: nat, to: nat, nfail: nat, answers: nat -> bool, command: nat)
    requires Logged(log, from, to, nfail, answers) && !answers(|log|)
    ensures Logged(log + [Attempt(command, false)], from, to, nfail + 1, answers)
  {
    assert (log + [Attempt(command, false)])[..|log|] == log;
  }

  lemma LogSuccess(log: seq<Attempt>, from: nat, to: nat, nfail: nat, answers: nat -> bool)
    requires Logged(log, from, to, nfail, answers) && answers(|log|)
    ensures Logged(log + [Attempt(to, true)], from, to + 1, nfail, answers)
  {
    assert (log + [Attempt(to, true)])[..|log|] == log;
    assert Range(from, to + 1) == Range(from, to) + [to];
  }

  method EnableAll(skip: array<bool>)
    modifies skip
    ensures IsPrefix(skip[..], 0)
  {
    for k := 0 to skip.Length
      invariant forall j :: 0 <= j < k ==> !skip[j]
    {
      skip[k] := false;
    }
  }

  /** The initialisation loop, against a modem whose n-th answer is answers(n). It always ends; the
      flags stay a prefix throughout; and it ends normally exactly when all commands that were still
      to do succeeded, each once and in list order, with at most `budget` failures on the way. */
  method Initialise(skip: array<bool>, budget: nat, answers: nat -> bool, ghost start: nat)
    returns (ok: bool, log: seq<Attempt>, ghost done: nat)
    requires IsPrefix(skip[..], start)
    modifies skip
    ensures start <= done <= skip.Length && IsPrefix(skip[..], done)
    ensures Succeeded(log) == Range(start, done)
    ensures |log| == (done - start) + Failures(log)
    ensures forall n :: 0 <= n < |log| ==> log[n].ok == answers(n)
    ensures ok ==> done == skip.Length && Failures(log) <= budget
    ensures !ok ==> done < skip.Length && Failures(log) == budget + 1
    ensures skip.Length > 0 ==> |log| <= skip.Length - start + budget
  {
    var iter, nfail := 0, 0;
    log, done := [], start;
    while iter < skip.Length
      invariant 0 <= iter <= done && start <= done <= skip.Length
      invariant IsPrefix(skip[..], done)
      invariant nfail <= budget && Logged(log, start, done, nfail, answers)
      decreases budget - nfail, skip.Length - iter
    {
      assert skip[iter] == skip[..][iter];
      if skip[iter] {
        iter := iter + 1;
        continue;
      }
      var answer := answers(|log|);
      if !answer {
        LogFailure(log, start, done, nfail, answers, iter);
        log := log + [Attempt(iter, false)];
        nfail := nfail + 1;
        if nfail > budget {
          return false, log, done;
        }
        iter := 0;
        continue;
      }
      LogSuccess(log, start, done, nfail, answers);
      log := log + [Attempt(iter, true)];
      skip[iter] := true;
      done := done + 1;
      iter := iter + 1;
    }
    return true, log, done;
  }

  const COMMANDS := 9
  const BUDGET := 20

  /** The firmware's own list: enabled afresh, its nine commands and budget of twenty failures mean at
      most 29 commands on the wire. */
  method InitialiseModem(skip: array<bool>, answers: nat -> bool) returns (ok: bool, log: seq<Attempt>)
    requires skip.Length == COMMANDS
    modifies skip
    ensures |log| <= 29 && |log| == |Succeeded(log)| + Failures(log)
    ensures forall n :: 0 <= n < |log| ==> log[n].ok == answers(n)
    ensures ok ==> Succeeded(log) == Range(0, COMMANDS) && Failures(log) <= BUDGET
    ensures !ok ==> Failures(log) == BUDGET + 1
  {
    EnableAll(skip);
    ghost var done;
    ok, log, done := Initialise(skip, BUDGET, answers, 0);
  }

  lemma {:induction false} FailuresFirst(log: seq<Attempt>, k: nat)
    requires forall n :: 0 <= n < |log| ==> (log[n].ok <==> n >= k)
    ensures Failures(log) == if |log| < k then |log| else k
  {
    if log != [] {
      FailuresFirst(log[..|log| - 1], k);
    }
  }

  lemma {:induction false} FailuresLast(log: seq<Attempt>, k: nat)
    requires forall n :: 0 <= n < |log| ==> (log[n].ok <==> n < k)
    ensures Failures(log) == if |log| < k then 0 else |log| - k
  {
    if log != [] {
      FailuresLast(log[..|log| - 1], k);
    }
  }

  /** The bound is met by a success: a modem that first fails twenty times takes 29 commands. */
  method TwentyFailuresFirst(skip: array<bool>) returns (ok: bool, log: seq<Attempt>)
    requires skip.Length == COMMANDS
    modifies skip
    ensures ok && |log| == 29
  {
    ok, log := InitialiseModem(skip, n => n >= BUDGET);
    FailuresFirst(log, BUDGET);
  }

  /** And by giving up: one that answers eight commands and then fails takes 29 too. */
  method FailuresAfterEight(skip: array<bool>) returns (ok: bool, log: seq<Attempt>)
    requires skip.Length == COMMANDS
    modifies skip
    ensures !ok && |log| == 29
  {
    ok, log := InitialiseModem(skip, n => n < COMMANDS - 1);
    FailuresLast(log, COMMANDS - 1);
  }
}
