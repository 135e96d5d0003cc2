/** The multilink plugin of pppd: link-up and link-down scripts that must not overlap. */
module MpLink {
  datatype Side = Down | Up

  /** A script launch: which script, and what run_program returned for it.  A positive value is the
      pid of a running child, zero means there was nothing to run, a negative one that fork failed. */
  datatype Launch = Launch(script: Side, pid: int)

  /** The plugin's three variables, the launches so far, and the script processes that are running. */
  datatype State = State(link: Side, script: Side, pid: int, launches: seq<Launch>, live: multiset<int>)

  /** What happens to the plugin: a link event, or pppd reaping one of its script processes; `pid` is what
      run_program returns if the event launches a script. */
  datatype Event = Join(pid: int) | Exit(pid: int) | ScriptDone(child: int, pid: int)

  const INITIAL: State := State(Down, Down, 0, [], multiset{})

  function LaunchScript(s: State, script: Side, pid: int): State {
    s.(script := script, pid := pid, launches := s.launches + [Launch(script, pid)],
       live := if pid > 0 then s.live + multiset{pid} else s.live)
  }

  lemma LaunchOverrides(s: State, script: Side, pid: int)
    ensures LaunchScript(s.(script := script), script, pid) == LaunchScript(s, script, pid)
  {
  }

  /** Any running script may end at any time. */
  predicate Enabled(s: State, e: Event) {
    e.ScriptDone? ==> e.child in s.live
  }

  function Step(s: State, e: Event): State
    requires Enabled(s, e)
  {
    match e
    case Join(pid) =>
      var t := s.(link := Up);
      if t.script == Down && t.pid == 0 then LaunchScript(t, Up, pid) else t
    case Exit(pid) =>
      var t := s.(link := Down);
      if t.script == Up && t.pid == 0 then LaunchScript(t, Down, pid) else t
    case ScriptDone(child, pid) =>
      var t := s.(pid := 0, live := s.live - multiset{child});
      if t.script != t.link then LaunchScript(t, t.link, pid) else t
  }

  /** The three static variables and the hooks that update them. */
  class Plugin {
    var mplink_state: Side
    var mplink_script_state: Side
    var mplink_script_pid: int
    ghost var launches: seq<Launch>
    ghost var live: multiset<int>

    ghost function View(): State
      reads this
    {
      State(mplink_state, mplink_script_state, mplink_script_pid, launches, live)
    }

    constructor ()
      ensures View() == INITIAL
    {
      mplink_state, mplink_script_state, mplink_script_pid := Down, Down, 0;
      launches, live := [], multiset{};
    }

    method MplinkScript(pid: int)
      modifies this
      ensures View() == LaunchScript(old(View()), old(mplink_script_state), pid)
    {
      launches := launches + [Launch(mplink_script_state, pid)];
      if pid > 0 {
        live := live + multiset{pid};
      }
      mplink_script_pid := pid;
    }

    method MplinkScriptDone(ghost child: int, pid: int)
      requires Enabled(View(), ScriptDone(child, pid))
      modifies this
      ensures View() == Step(old(View()), ScriptDone(child, pid))
    {
      hide LaunchScript;
      live := live - multiset{child};
      mplink_script_pid := 0;
      ghost var t := View();
      LaunchOverrides(t, mplink_state, pid);
      match mplink_script_state {
        case Up =>
          if mplink_state == Down {
            mplink_script_state := Down;
            MplinkScript(pid);
          }
        case Down =>
          if mplink_state == Up {
            mplink_script_state := Up;
            MplinkScript(pid);
          }
      }
    }

    method MplinkJoinHook(pid: int)
      modifies this
      ensures View() == Step(old(View()), Join(pid))
    {
      mplink_state := Up;
      if mplink_script_state == Down && mplink_script_pid == 0 {
        mplink_script_state := Up;
        MplinkScript(pid);
      }
    }

    method MplinkExitHook(pid: int)
      modifies this
      ensures View() == Step(old(View()), Exit(pid))
    {
      mplink_state := Down;
      if mplink_script_state == Up && mplink_script_pid == 0 {
        mplink_script_state := Down;
        MplinkScript(pid);
      }
    }
  }

  // ----- runs

  predicate CanRun(s: State, run: seq<Event>)
    decreases run
  {
    run == [] || (Enabled(s, run[0]) && CanRun(Step(s, run[0]), run[1..]))
  }

  function Run(s: State, run: seq<Event>): State
    requires CanRun(s, run)
    decreases run
  {
    if run == [] then s else Run(Step(s, run[0]), run[1..])
  }

  function LastPid(s: State): int {
    if s.launches == [] then 0 else s.launches[|s.launches| - 1].pid
  }

  ghost predicate Alternate(launches: seq<Launch>) {
    forall i :: 0 <= i < |launches| ==> launches[i].script == if i % 2 == 0 then Up else Down
  }

  ghost predicate NoneFailed(launches: seq<Launch>) {
    forall i :: 0 <= i < |launches| ==> launches[i].pid >= 0
  }

  /** Launches alternate up, down, up, ...; the pid variable names the one running script, or is 0 and
      script and link agree, or holds the failure of the last launch, the only one that can have failed. */
  ghost predicate Inv(s: State) {
    && Alternate(s.launches)
    && s.script == (if |s.launches| % 2 == 0 then Down else Up)
    && s.live == (if s.pid > 0 then multiset{s.pid} else multiset{})
    && (s.pid == 0 ==> s.script == s.link)
    && (s.pid != 0 ==> s.launches != [] && s.pid == LastPid(s))
    && (s.pid >= 0 ==> NoneFailed(s.launches))
  }

  /** A launch with nothing running and no failure so far. */
  lemma LaunchKeepsInv(t: State, pid: int)
    requires Alternate(t.launches) && NoneFailed(t.launches) && t.live == multiset{}
    requires t.script == (if |t.launches| % 2 == 0 then Down else Up) && t.script != t.link
    ensures Inv(LaunchScript(t, t.link, pid))
  {
  }

  lemma OnlyChild(s: State, child: int)
    requires Inv(s) && child in s.live
    ensures s.pid == child > 0 && s.live - multiset{child} == multiset{}
  {
  }

  lemma StepKeepsInv(s: State, e: Event)
    requires Inv(s) && Enabled(s, e)
    ensures Inv(Step(s, e))
  {
    hide Alternate, NoneFailed;
    match e
    case Join(pid) =>
      if s.script == Down && s.pid == 0 {
        LaunchKeepsInv(s.(link := Up), pid);
      }
    case Exit(pid) =>
      if s.script == Up && s.pid == 0 {
        LaunchKeepsInv(s.(link := Down), pid);
      }
    case ScriptDone(child, pid) =>
      OnlyChild(s, child);
      if s.script != s.link {
        LaunchKeepsInv(s.(pid := 0, live := multiset{}), pid);
      }
  }

  lemma {:induction false} RunKeepsInv(s: State, run: seq<Event>)
    requires Inv(s) && CanRun(s, run)
    ensures Inv(Run(s, run))
    decreases run
  {
    if run != [] {
      StepKeepsInv(s, run[0]);
      RunKeepsInv(Step(s, run[0]), run[1..]);
    }
  }

  /** In every run at most one script is running, and it is the one whose pid the plugin remembers. */
  lemma OneScript(run: seq<Event>)
    requires CanRun(INITIAL, run)
    ensures var s := Run(INITIAL, run);
            |s.live| <= 1 && forall p :: p in s.live <==> s.pid == p && p > 0
  {
    RunKeepsInv(INITIAL, run);
  }

  /** In every run scripts alternate, starting with up. */
  lemma ScriptsAlternate(run: seq<Event>)
    requires CanRun(INITIAL, run)
    ensures var s := Run(INITIAL, run);
            && Alternate(s.launches)
            && s.script == if s.launches == [] then Down else s.launches[|s.launches| - 1].script
  {
    RunKeepsInv(INITIAL, run);
  }

  // ----- agreement of an idle plugin with the link

  /** The link's side after the link events of a run. */
  function LinkAfter(link: Side, run: seq<Event>): Side
    decreases run
  {
    if run == [] then link
    else LinkAfter(if run[0].Join? then Up else if run[0].Exit? then Down else link, run[1..])
  }

  lemma {:induction false} LinkFollows(s: State, run: seq<Event>)
    requires CanRun(s, run)
    ensures Run(s, run).link == LinkAfter(s.link, run)
    decreases run
  {
    if run != [] {
      LinkFollows(Step(s, run[0]), run[1..]);
    }
  }

  /** The event whose launch fails first, or the length of the run if none does. */
  function FailedAt(s: State, run: seq<Event>): (k: nat)
    requires CanRun(s, run)
    ensures k <= |run|
    decreases run
  {
    if run == [] then 0
    else if Step(s, run[0]).pid < 0 then 0
    else 1 + FailedAt(Step(s, run[0]), run[1..])
  }

  lemma FailedLaunch(s: State, e: Event)
    requires Inv(s) && Enabled(s, e) && s.pid >= 0 && Step(s, e).pid < 0
    ensures var t := Step(s, e); t.script == t.link == LinkAfter(s.link, [e]) && t.live == multiset{}
  {
    assert [e][1..] == [];
    if e.ScriptDone? {
      OnlyChild(s, e.child);
    }
  }

  lemma {:induction false} StuckScript(s: State, run: seq<Event>)
    requires s.pid < 0 && s.live == multiset{} && CanRun(s, run)
    ensures var t := Run(s, run); t.script == s.script && t.pid == s.pid && t.live == multiset{}
    decreases run
  {
    if run != [] {
      StuckScript(Step(s, run[0]), run[1..]);
    }
  }

  lemma LinkOfStep(s: State, e: Event)
    requires Enabled(s, e)
    ensures Step(s, e).link == LinkAfter(s.link, [e])
  {
    assert [e][1..] == [];
  }

  lemma {:induction false} LinkAfterConcat(link: Side, a: seq<Event>, b: seq<Event>)
    ensures LinkAfter(link, a + b) == LinkAfter(LinkAfter(link, a), b)
    decreases a
  {
    if a == [] {
      assert a + b == b;
    } else {
      assert (a + b)[1..] == a[1..] + b;
      LinkAfterConcat(if a[0].Join? then Up else if a[0].Exit? then Down else link, a[1..], b);
    }
  }

  lemma PrefixLink(link: Side, run: seq<Event>, k: nat)
    requires run != [] && k <= |run| - 1
    ensures LinkAfter(link, run[..k + 1]) == LinkAfter(LinkAfter(link, [run[0]]), run[1..][..k])
  {
    assert run[..k + 1] == [run[0]] + run[1..][..k];
    LinkAfterConcat(link, [run[0]], run[1..][..k]);
  }

  /** After the first failure the script stays on the side the link had then. */
  lemma {:induction false} FailureFreezes(s: State, run: seq<Event>)
    requires Inv(s) && s.pid >= 0 && CanRun(s, run)
    ensures var k, t := FailedAt(s, run), Run(s, run);
            if k == |run| then t.pid >= 0
            else t.pid < 0 && t.live == multiset{} && t.script == LinkAfter(s.link, run[..k + 1])
    decreases run
  {
    if run != [] {
      var e, t := run[0], Step(s, run[0]);
      StepKeepsInv(s, e);
      LinkOfStep(s, e);
      hide Inv, Step, LinkAfter;
      if t.pid < 0 {
        FailedLaunch(s, e);
        StuckScript(t, run[1..]);
        assert run[..1] == [e];
      } else {
        FailureFreezes(t, run[1..]);
        if FailedAt(t, run[1..]) < |run| - 1 {
          PrefixLink(s.link, run, FailedAt(t, run[1..]) + 1);
        }
      }
    }
  }

  /** With no script running, the last script fits the link exactly if no launch has failed, or the link
      events behind the first failure leave the link on the side it had then. */
  lemma {:induction false} IdleAgreement(run: seq<Event>)
    requires CanRun(INITIAL, run) && Run(INITIAL, run).live == multiset{}
    ensures var s, k := Run(INITIAL, run), FailedAt(INITIAL, run);
            s.script == s.link <==>
              k == |run| || var side := LinkAfter(Down, run[..k + 1]); LinkAfter(side, run[k + 1..]) == side
  {
    RunKeepsInv(INITIAL, run);
    FailureFreezes(INITIAL, run);
    LinkFollows(INITIAL, run);
    var s, k := Run(INITIAL, run), FailedAt(INITIAL, run);
    assert s.pid <= 0 by {
      assert s.pid > 0 ==> s.pid in s.live;
    }
    if k < |run| {
      assert run == run[..k + 1] + run[k + 1..];
      LinkAfterConcat(Down, run[..k + 1], run[k + 1..]);
    }
  }

  /** Behind a failure the sides agree as long as there is no link event, and then exactly if the last one
      goes to the same side. */
  lemma {:induction false} LastLinkEvent(side: Side, run: seq<Event>, e: Event, done: seq<Event>)
    requires OnlyDone(done)
    ensures LinkAfter(side, done) == side
    ensures LinkAfter(side, run + [e] + done) ==
            if e.Join? then Up else if e.Exit? then Down else LinkAfter(side, run)
  {
    OnlyDoneKeeps(side, done);
    OnlyDoneKeeps(LinkAfter(side, run + [e]), done);
    LinkAfterConcat(side, run + [e], done);
    LinkAfterConcat(side, run, [e]);
    assert [e][1..] == [];
  }

  lemma {:induction false} OnlyDoneKeeps(side: Side, done: seq<Event>)
    requires OnlyDone(done)
    ensures LinkAfter(side, done) == side
    decreases done
  {
    if done != [] {
      OnlyDoneKeeps(side, done[1..]);
    }
  }

  // ----- quiescence

  predicate OnlyDone(run: seq<Event>) {
    forall i :: 0 <= i < |run| ==> run[i].ScriptDone?
  }

  lemma NoChildNoCompletion(s: State, run: seq<Event>)
    requires s.live == multiset{} && CanRun(s, run) && OnlyDone(run)
    ensures run == []
  {
  }

  /** One completion: the script that is running now, if any, is one for the link's present side. */
  lemma AfterCompletion(s: State, e: Event)
    requires Inv(s) && Enabled(s, e) && e.ScriptDone?
    ensures var t := Step(s, e); t.script == t.link == s.link && (s.script == s.link ==> t.live == multiset{})
  {
    OnlyChild(s, e.child);
  }

  /** Once link events stop at most two completions follow, and then, or as soon as nothing is running any
      more, script and link agree, unless nothing was running from the start because a fork had failed. */
  lemma {:induction false} TwoCompletionsSettle(run: seq<Event>, tail: seq<Event>)
    requires CanRun(INITIAL, run) && CanRun(Run(INITIAL, run), tail) && OnlyDone(tail)
    ensures |tail| <= 2
    ensures var s, t := Run(INITIAL, run), Run(Run(INITIAL, run), tail);
            && (|tail| == 2 ==> t.live == multiset{})
            && (tail != [] ==> t.script == t.link == s.link)
            && (t.live == multiset{} ==> t.script == t.link || (tail == [] && s.pid < 0))
  {
    RunKeepsInv(INITIAL, run);
    var s := Run(INITIAL, run);
    if |tail| > 0 {
      var s1 := Step(s, tail[0]);
      StepKeepsInv(s, tail[0]);
      AfterCompletion(s, tail[0]);
      var rest := tail[1..];
      assert Run(s, tail) == Run(s1, rest);
      if |tail| > 1 {
        assert rest[0] == tail[1];
        var s2 := Step(s1, rest[0]);
        AfterCompletion(s1, rest[0]);
        assert CanRun(s2, rest[1..]);
        NoChildNoCompletion(s2, rest[1..]);
        assert Run(s1, rest) == s2;
      }
    } else {
      assert s.pid > 0 ==> s.pid in s.live;
    }
  }

  // ----- the wedge

  lemma {:induction false} FailedForkWedges(s: State, run: seq<Event>)
    requires s.pid < 0 && s.live == multiset{} && CanRun(s, run)
    ensures Run(s, run).launches == s.launches && Run(s, run).pid == s.pid
    decreases run
  {
    if run != [] {
      FailedForkWedges(Step(s, run[0]), run[1..]);
    }
  }

  lemma RunTwo(s: State, a: Event, b: Event)
    requires Enabled(s, a) && Enabled(Step(s, a), b)
    ensures CanRun(s, [a, b]) && Run(s, [a, b]) == Step(Step(s, a), b)
  {
    hide Step;
    var t := Step(s, a);
    assert [a, b][1..] == [b] && [b][1..] == [];
    assert CanRun(Step(t, b), []) && Run(Step(t, b), []) == Step(t, b);
    assert CanRun(t, [b]) && Run(t, [b]) == Run(Step(t, b), []);
  }

  /** From every other state one more launch can be brought about, with any outcome: also the failure. */
  lemma OthersStayLive(s: State, outcome: int) returns (run: seq<Event>)
    requires Inv(s) && s.pid >= 0
    ensures CanRun(s, run)
    ensures var t := Run(s, run); |t.launches| == |s.launches| + 1 && t.pid == outcome == LastPid(t)
  {
    var flip := if s.script == Up then Exit(outcome) else Join(outcome);
    hide Alternate, NoneFailed;
    var t := Step(s, flip);
    if s.pid == 0 {
      run := [flip];
      assert run[1..] == [];
      assert Run(s, run) == t;
    } else {
      var done := ScriptDone(s.pid, outcome);
      assert t == s.(link := if s.script == Up then Down else Up) && s.pid in t.live;
      RunTwo(s, flip, done);
      run := [flip, done];
    }
  }

  /** No continuation launches a script any more. */
  ghost predicate Wedged(s: State) {
    forall run :: CanRun(s, run) ==> Run(s, run).launches == s.launches
  }

  /** A reachable plugin is wedged exactly if its last fork has failed. */
  lemma WedgedIff(run: seq<Event>)
    requires CanRun(INITIAL, run)
    ensures Wedged(Run(INITIAL, run)) <==> LastPid(Run(INITIAL, run)) < 0
  {
    RunKeepsInv(INITIAL, run);
    var s := Run(INITIAL, run);
    if LastPid(s) < 0 {
      forall more | CanRun(s, more)
        ensures Run(s, more).launches == s.launches
      {
        FailedForkWedges(s, more);
      }
    } else {
      var more := OthersStayLive(s, 1);
      assert Run(s, more).launches != s.launches;
    }
  }

  /** The shortest way to an idle plugin at odds with the link. */
  lemma WedgedAtOdds()
    ensures var run := [Join(-1), Exit(1)];
            CanRun(INITIAL, run) && Wedged(Run(INITIAL, run)) && Run(INITIAL, run).script != Run(INITIAL, run).link
  {
    RunTwo(INITIAL, Join(-1), Exit(1));
    WedgedIff([Join(-1), Exit(1)]);
  }
}
