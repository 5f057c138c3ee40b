/** Undo and redo of the flow canvas (`use-canvas-history.ts`) together with the editor that drives it
    (`editor-body.tsx`): two bounded stacks around the current graph, proved to be a cursor on one timeline. */
module CanvasHistory {
  import opened Common

  datatype Snapshot<N, E> = Snapshot(nodes: seq<N>, edges: seq<E>)

  const MAX_HISTORY := 50

  /** The two stacks and the graph on the canvas. */
  datatype Canvas<S> = Canvas(undo: seq<S>, redo: seq<S>, current: S)

  /** `Commit` records the graph it replaces, `Replace` (a commit that skips the history) does not. */
  datatype Action<S> = Commit(next: S) | Replace(next: S) | Undo | Redo

  function LastOf<S>(s: seq<S>, n: nat): seq<S> {
    s[|s| - Min(|s|, n)..]
  }

  function Step<S>(c: Canvas<S>, a: Action<S>): Canvas<S> {
    match a
    case Commit(next) => Canvas(LastOf(c.undo, MAX_HISTORY - 1) + [c.current], [], next)
    case Replace(next) => c.(current := next)
    case Undo =>
      if c.undo == [] then c
      else Canvas(c.undo[..|c.undo| - 1], c.redo + [c.current], c.undo[|c.undo| - 1])
    case Redo =>
      if c.redo == [] then c
      else Canvas(c.undo + [c.current], c.redo[..|c.redo| - 1], c.redo[|c.redo| - 1])
  }

  function Run<S>(c: Canvas<S>, actions: seq<Action<S>>): Canvas<S>
    decreases |actions|
  {
    if actions == [] then c else Run(Step(c, actions[0]), actions[1..])
  }

  class History<N, E> {
    var undoStack: seq<Snapshot<N, E>>
    var redoStack: seq<Snapshot<N, E>>

    constructor ()
      ensures undoStack == [] && redoStack == []
    {
      undoStack, redoStack := [], [];
    }

    ghost function Around(current: Snapshot<N, E>): Canvas<Snapshot<N, E>>
      reads this
    {
      Canvas(undoStack, redoStack, current)
    }

    method Push(nodes: seq<N>, edges: seq<E>)
      modifies this
      ensures forall next :: Around(next) == Step(old(Around(Snapshot(nodes, edges))), Commit(next))
    {
      var keep := Min(|undoStack|, MAX_HISTORY - 1);
      undoStack := undoStack[|undoStack| - keep..] + [Snapshot(nodes, edges)];
      redoStack := [];
    }

    method Undo(nodes: seq<N>, edges: seq<E>) returns (r: Option<Snapshot<N, E>>)
      modifies this
      ensures r.None? <==> old(undoStack) == []
      ensures Around(if r.Some? then r.value else Snapshot(nodes, edges))
           == Step(old(Around(Snapshot(nodes, edges))), Action.Undo)
    {
      if |undoStack| == 0 { return None; }
      var snapshot := undoStack[|undoStack| - 1];
      undoStack := undoStack[..|undoStack| - 1];
      redoStack := redoStack + [Snapshot(nodes, edges)];
      return Some(snapshot);
    }

    method Redo(nodes: seq<N>, edges: seq<E>) returns (r: Option<Snapshot<N, E>>)
      modifies this
      ensures r.None? <==> old(redoStack) == []
      ensures Around(if r.Some? then r.value else Snapshot(nodes, edges))
           == Step(old(Around(Snapshot(nodes, edges))), Action.Redo)
    {
      if |redoStack| == 0 { return None; }
      var snapshot := redoStack[|redoStack| - 1];
      redoStack := redoStack[..|redoStack| - 1];
      undoStack := undoStack + [Snapshot(nodes, edges)];
      return Some(snapshot);
    }
  }

  /** For four seconds after a commit that grew the graph, a smaller one from the parent is not taken. */
  datatype Guard = Guard(until: int, nodes: nat, edges: nat)

  const GUARD_MS := 4000

  /** What the parent is told. */
  datatype Change<N, E, C> = Change(context: C, graph: Snapshot<N, E>, allowGraphShrink: bool, persistImmediately: bool)

  predicate Smaller<N, E>(a: Snapshot<N, E>, b: Snapshot<N, E>) {
    |a.nodes| < |b.nodes| || |a.edges| < |b.edges|
  }

  predicate Shields<N, E>(guard: Option<Guard>, g: Snapshot<N, E>, now: int) {
    guard.Some? && guard.value.until > now && (|g.nodes| < guard.value.nodes || |g.edges| < guard.value.edges)
  }

  /** The editor: it owns the graph on the canvas and its history, tells the parent of its changes and takes graphs from
      the parent. Graphs with the same fingerprint are the same to it. */
  class Editor<N, E, C(!new)> {
    var graph: Snapshot<N, E>
    const history: History<N, E>
    const fingerprint: Snapshot<N, E> -> string
    var context: C
    var lastApplied: string
    var lastSeen: string
    var guard: Option<Guard>
    var changes: seq<Change<N, E, C>>

    constructor (context: C, nodes: seq<N>, edges: seq<E>, fingerprint: Snapshot<N, E> -> string)
      ensures State() == Canvas([], [], Snapshot(nodes, edges)) && Synced() && fresh(history)
      ensures this.fingerprint == fingerprint && lastSeen == fingerprint(Snapshot(nodes, edges))
      ensures this.context == context && guard.None? && changes == []
    {
      graph := Snapshot(nodes, edges);
      history := new History<N, E>();
      this.context, this.fingerprint := context, fingerprint;
      lastApplied, lastSeen := fingerprint(Snapshot(nodes, edges)), fingerprint(Snapshot(nodes, edges));
      guard, changes := None, [];
    }

    ghost function State(): Canvas<Snapshot<N, E>>
      reads this, history
    {
      Canvas(history.undoStack, history.redoStack, graph)
    }

    /** The fingerprint kept is that of the canvas. */
    ghost predicate Synced()
      reads this
    {
      lastApplied == fingerprint(graph)
    }

    /** The canvas shows `next` and the parent is told. */
    method Publish(next: Snapshot<N, E>, allowGraphShrink: bool, persistImmediately: bool)
      modifies this`graph, this`lastApplied, this`changes
      ensures graph == next && Synced()
      ensures changes == old(changes) + [Change(context, next, allowGraphShrink, persistImmediately)]
    {
      graph := next;
      lastApplied := fingerprint(next);
      changes := changes + [Change(context, next, allowGraphShrink, persistImmediately)];
    }

    /** A commit that would shrink the graph without leave is dropped. */
    method CommitGraph(nodes: seq<N>, edges: seq<E>, skipHistory: bool, allowGraphShrink: bool,
                       persistImmediately: bool, now: int)
      requires Synced()
      modifies this, history
      ensures Synced() && context == old(context) && lastSeen == old(lastSeen)
      ensures
        var next := Snapshot(nodes, edges);
        if !allowGraphShrink && Smaller(next, old(graph))
        then State() == old(State()) && changes == old(changes) && guard == old(guard)
        else && State() == Step(old(State()), if skipHistory then Replace(next) else Commit(next))
             && changes == old(changes) + [Change(context, next, allowGraphShrink, persistImmediately)]
             && guard == (if allowGraphShrink then None
                          else if Smaller(old(graph), next) then Some(Guard(now + 4000, |nodes|, |edges|))
                          else old(guard))
    {
      var next := Snapshot(nodes, edges);
      if !allowGraphShrink && (|nodes| < |graph.nodes| || |edges| < |graph.edges|) { return; }
      if !allowGraphShrink && (|nodes| > |graph.nodes| || |edges| > |graph.edges|) {
        guard := Some(Guard(now + GUARD_MS, |nodes|, |edges|));
      } else if allowGraphShrink {
        guard := None;
      }
      if !skipHistory {
        history.Push(graph.nodes, graph.edges);
        assert history.Around(next) == Step(old(State()), Commit(next));
      }
      Publish(next, allowGraphShrink, persistImmediately);
    }

    method HandleUndo(readOnly: bool)
      requires Synced()
      modifies this, history
      ensures Synced() && context == old(context) && lastSeen == old(lastSeen) && guard == old(guard)
      ensures State() == if readOnly then old(State()) else Step(old(State()), Action.Undo)
      ensures changes == old(changes) + if readOnly || old(State()).undo == [] then []
                                        else [Change(context, graph, true, false)]
    {
      if readOnly { return; }
      var snapshot := history.Undo(graph.nodes, graph.edges);
      assert history.Around(if snapshot.Some? then snapshot.value else graph) == Step(old(State()), Action.Undo);
      if snapshot.Some? { Publish(snapshot.value, true, false); }
    }

    method HandleRedo(readOnly: bool)
      requires Synced()
      modifies this, history
      ensures Synced() && context == old(context) && lastSeen == old(lastSeen) && guard == old(guard)
      ensures State() == if readOnly then old(State()) else Step(old(State()), Action.Redo)
      ensures changes == old(changes) + if readOnly || old(State()).redo == [] then []
                                        else [Change(context, graph, true, false)]
    {
      if readOnly { return; }
      var snapshot := history.Redo(graph.nodes, graph.edges);
      assert history.Around(if snapshot.Some? then snapshot.value else graph) == Step(old(State()), Action.Redo);
      if snapshot.Some? { Publish(snapshot.value, true, false); }
    }

    /** A graph from the parent replaces the one on the canvas exactly when it is news to the editor: it is not the one
        the parent had before, not the one on the canvas, such as the echo of a change, and no smaller one while the
        guard stands. The history is not touched and nobody is told. */
    method TakeFromParent(newContext: C, g: Snapshot<N, E>, now: int)
      requires Synced()
      modifies this
      ensures Synced() && context == newContext && lastSeen == fingerprint(g) && changes == old(changes)
      ensures
        var isNews := fingerprint(g) != old(lastSeen) && fingerprint(g) != fingerprint(old(graph))
                   && !Shields(old(guard), g, now);
        State() == if isNews then Step(old(State()), Replace(g)) else old(State())
      ensures guard == old(guard) || (old(guard).Some? && old(guard).value.until <= now && guard.None?)
    {
      context := newContext;
      if fingerprint(g) == lastSeen { return; }
      lastSeen := fingerprint(g);
      if guard.Some? && guard.value.until > now && (|g.nodes| < guard.value.nodes || |g.edges| < guard.value.edges) {
        return;
      }
      if guard.Some? && guard.value.until <= now { guard := None; }
      if fingerprint(g) == lastApplied { return; }
      lastApplied := fingerprint(g);
      graph := g;
    }
  }

  /** What the user sees: every reachable graph in order, and which of them is on the canvas. */
  datatype Timeline<S> = Timeline(states: seq<S>, at: nat)

  function Reversed<S>(s: seq<S>): (r: seq<S>)
    ensures |r| == |s| && forall i :: 0 <= i < |s| ==> r[i] == s[|s| - 1 - i]
  {
    seq(|s|, i requires 0 <= i < |s| => s[|s| - 1 - i])
  }

  function TimelineOf<S>(c: Canvas<S>): Timeline<S> {
    Timeline(c.undo + [c.current] + Reversed(c.redo), |c.undo|)
  }

  /** The actions on a timeline: undo and redo only move the cursor; a commit forgets what lay ahead of the cursor
      and all but the last 50 graphs up to it. */
  function Move<S>(t: Timeline<S>, a: Action<S>): Timeline<S>
    requires t.at < |t.states|
  {
    match a
    case Commit(next) =>
      var kept := LastOf(t.states[..t.at + 1], MAX_HISTORY);
      Timeline(kept + [next], |kept|)
    case Replace(next) => t.(states := t.states[t.at := next])
    case Undo => if t.at > 0 then t.(at := t.at - 1) else t
    case Redo => if t.at + 1 < |t.states| then t.(at := t.at + 1) else t
  }

  function Travel<S>(t: Timeline<S>, actions: seq<Action<S>>): Timeline<S>
    requires t.at < |t.states|
    decreases |actions|
  {
    if actions == [] then t else Travel(Move(t, actions[0]), actions[1..])
  }

  lemma CommitIsMove<S>(c: Canvas<S>, next: S)
    ensures TimelineOf(Step(c, Commit(next))) == Move(TimelineOf(c), Commit(next))
  {
  }

  lemma UndoIsMove<S>(c: Canvas<S>)
    ensures TimelineOf(Step(c, Undo)) == Move(TimelineOf(c), Undo)
  {
  }

  lemma RedoIsMove<S>(c: Canvas<S>)
    ensures TimelineOf(Step(c, Redo)) == Move(TimelineOf(c), Redo)
  {
  }

  lemma StepIsMove<S>(c: Canvas<S>, a: Action<S>)
    ensures TimelineOf(Step(c, a)) == Move(TimelineOf(c), a)
  {
    match a
    case Commit(next) => CommitIsMove(c, next);
    case Replace(next) =>
      assert (c.undo + [c.current] + Reversed(c.redo))[|c.undo| := next] == c.undo + [next] + Reversed(c.redo);
    case Undo => UndoIsMove(c);
    case Redo => RedoIsMove(c);
  }

  /** Over any run the two stacks behave as one timeline with a cursor. */
  lemma {:induction false} RunIsTravel<S>(c: Canvas<S>, actions: seq<Action<S>>)
    ensures TimelineOf(Run(c, actions)) == Travel(TimelineOf(c), actions)
    decreases |actions|
  {
    if actions != [] {
      StepIsMove(c, actions[0]);
      RunIsTravel(Step(c, actions[0]), actions[1..]);
    }
  }

  /** The timeline determines both stacks and the current graph. */
  lemma TimelineDetermines<S>(c: Canvas<S>, d: Canvas<S>)
    ensures TimelineOf(c) == TimelineOf(d) <==> c == d
  {
    var t, u := TimelineOf(c), TimelineOf(d);
    if t == u {
      assert c.undo == t.states[..t.at] == d.undo;
      assert c.current == t.states[t.at] == d.current;
      assert |c.redo| == |t.states| - t.at - 1 == |d.redo|;
      forall i | 0 <= i < |c.redo| ensures c.redo[i] == d.redo[i] {
        assert c.redo[i] == t.states[|t.states| - 1 - i];
        assert d.redo[i] == u.states[|t.states| - 1 - i];
      }
    }
  }

  /** However the canvas is used, the stacks together never hold more than 50 snapshots. */
  lemma {:induction false} HistoryStaysBounded<S>(c: Canvas<S>, actions: seq<Action<S>>)
    requires |c.undo| + |c.redo| <= 50
    ensures var d := Run(c, actions); |d.undo| + |d.redo| <= 50
    decreases |actions|
  {
    if actions != [] {
      HistoryStaysBounded(Step(c, actions[0]), actions[1..]);
    }
  }

  predicate OnlyMoves<S>(actions: seq<Action<S>>) {
    forall i :: 0 <= i < |actions| ==> actions[i].Undo? || actions[i].Redo?
  }

  /** Where a list of undos and redos leaves a cursor on a timeline of `length` graphs. */
  function Cursor<S>(at: int, length: int, actions: seq<Action<S>>): (r: int)
    requires 0 <= at < length
    ensures 0 <= r < length
    decreases |actions|
  {
    if actions == [] then at
    else Cursor(if actions[0].Undo? then Max(at - 1, 0) else Min(at + 1, length - 1), length, actions[1..])
  }

  /** Any mix of undos and redos keeps every graph and only moves the cursor. */
  lemma {:induction false} MovesKeepTimeline<S>(c: Canvas<S>, actions: seq<Action<S>>)
    requires OnlyMoves(actions)
    ensures TimelineOf(Run(c, actions))
         == TimelineOf(c).(at := Cursor(|c.undo|, |TimelineOf(c).states|, actions))
    decreases |actions|
  {
    if actions != [] {
      StepIsMove(c, actions[0]);
      MovesKeepTimeline(Step(c, actions[0]), actions[1..]);
    }
  }

  function Times<S>(a: Action<S>, n: nat): (s: seq<Action<S>>)
    ensures |s| == n && forall i :: 0 <= i < n ==> s[i] == a
  {
    seq(n, _ => a)
  }

  lemma {:induction false} CursorAfterUndos<S>(at: int, length: int, k: nat)
    requires k <= at < length
    ensures Cursor(at, length, Times(Action<S>.Undo, k)) == at - k
  {
    if k > 0 {
      assert Times(Action<S>.Undo, k)[1..] == Times(Action<S>.Undo, k - 1);
      CursorAfterUndos<S>(at - 1, length, k - 1);
    }
  }

  lemma {:induction false} CursorAfterRedos<S>(at: int, length: int, k: nat)
    requires 0 <= at && at + k < length
    ensures Cursor(at, length, Times(Action<S>.Redo, k)) == at + k
    decreases k
  {
    if k > 0 {
      assert Times(Action<S>.Redo, k)[1..] == Times(Action<S>.Redo, k - 1);
      CursorAfterRedos<S>(at + 1, length, k - 1);
    }
  }

  lemma CurrentIsAt<S>(c: Canvas<S>)
    ensures TimelineOf(c).at == |c.undo| < |TimelineOf(c).states| && TimelineOf(c).states[|c.undo|] == c.current
  {
  }

  lemma UndosMoveBack<S>(c: Canvas<S>, k: nat)
    requires k <= |c.undo|
    ensures var back := Run(c, Times(Action<S>.Undo, k));
      && TimelineOf(back) == TimelineOf(c).(at := |c.undo| - k) && |back.undo| == |c.undo| - k
      && back.current == TimelineOf(c).states[|c.undo| - k]
  {
    var back := Run(c, Times(Action<S>.Undo, k));
    MovesKeepTimeline(c, Times(Action<S>.Undo, k));
    CursorAfterUndos<S>(|c.undo|, |TimelineOf(c).states|, k);
    CurrentIsAt(back);
  }

  lemma RedosMoveForward<S>(c: Canvas<S>, k: nat)
    requires |c.undo| + k < |TimelineOf(c).states|
    ensures TimelineOf(Run(c, Times(Action<S>.Redo, k))) == TimelineOf(c).(at := |c.undo| + k)
  {
    MovesKeepTimeline(c, Times(Action<S>.Redo, k));
    CursorAfterRedos<S>(|c.undo|, |TimelineOf(c).states|, k);
  }

  /** `k` undos show the graph `k` places back; `k` redos then restore the graph and both stacks. */
  lemma UndosThenRedosRestore<S>(c: Canvas<S>, k: nat)
    requires k <= |c.undo|
    ensures var back := Run(c, Times(Action<S>.Undo, k));
      && back.current == TimelineOf(c).states[|c.undo| - k]
      && Run(back, Times(Action<S>.Redo, k)) == c
  {
    UndosMoveBack(c, k);
    RedosMoveForward(Run(c, Times(Action<S>.Undo, k)), k);
    TimelineDetermines(Run(Run(c, Times(Action<S>.Undo, k)), Times(Action<S>.Redo, k)), c);
  }

  function Commits<S>(graphs: seq<S>): seq<Action<S>> {
    seq(|graphs|, i requires 0 <= i < |graphs| => Commit(graphs[i]))
  }

  lemma LastOfJoin<S>(a: seq<S>, b: seq<S>, n: nat)
    ensures LastOf(LastOf(a, n) + b, n) == LastOf(a + b, n)
  {
  }

  /** After commits the undo stack ends with the last 50 of all the graphs they replaced. */
  lemma {:induction false} CommitsRemember<S>(c: Canvas<S>, graphs: seq<S>)
    requires graphs != []
    ensures var d := Run(c, Commits(graphs));
      && d.undo == LastOf(c.undo + [c.current] + graphs[..|graphs| - 1], MAX_HISTORY)
      && d.redo == [] && d.current == graphs[|graphs| - 1]
    decreases |graphs|
  {
    var rest, d := graphs[1..], Step(c, Commit(graphs[0]));
    assert Commits(graphs)[1..] == Commits(rest);
    assert d.undo == LastOf(c.undo + [c.current], MAX_HISTORY);
    if rest == [] {
      assert c.undo + [c.current] + graphs[..|graphs| - 1] == c.undo + [c.current];
      assert Run(d, []) == d;
    } else {
      CommitsRemember(d, rest);
      LastOfJoin(c.undo + [c.current], [graphs[0]] + rest[..|rest| - 1], MAX_HISTORY);
      assert d.undo + [graphs[0]] + rest[..|rest| - 1] == d.undo + ([graphs[0]] + rest[..|rest| - 1]);
      assert graphs[..|graphs| - 1] == [graphs[0]] + rest[..|rest| - 1];
      assert c.undo + [c.current] + graphs[..|graphs| - 1]
          == c.undo + [c.current] + ([graphs[0]] + rest[..|rest| - 1]);
    }
  }

  /** Counted from the end, a tail has the elements of the whole. */
  lemma LastAt<S>(s: seq<S>, tail: seq<S>, x: S, k: nat)
    requires tail == LastOf(s, MAX_HISTORY) && k <= |tail|
    ensures (tail + [x])[|tail| - k] == (s + [x])[|s| - k]
  {
  }

  /** Up to 50 commits can be undone back to the graph they started from; every commit beyond that loses one. */
  lemma CommitsCanBeUndone<S>(c: Canvas<S>, graphs: seq<S>, k: nat)
    requires graphs != []
    ensures var d := Run(c, Commits(graphs));
      && |d.undo| == Min(|c.undo| + |graphs|, 50)
      && (k <= |d.undo| ==>
            Run(d, Times(Action<S>.Undo, k)).current
            == (c.undo + [c.current] + graphs)[|c.undo| + |graphs| - k])
  {
    var d, all := Run(c, Commits(graphs)), c.undo + [c.current] + graphs;
    CommitsRemember(c, graphs);
    var replaced := c.undo + [c.current] + graphs[..|graphs| - 1];
    assert all == replaced + [d.current];
    if k <= |d.undo| {
      UndosThenRedosRestore(d, k);
      LastAt(replaced, d.undo, d.current, k);
      assert TimelineOf(d).states == d.undo + [d.current] by { assert Reversed<S>([]) == []; }
    }
  }
}
