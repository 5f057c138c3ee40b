/** When may an edit be called saved? The canvas autosave of `use-flow-engine-controller.ts` together with
    `queueDraftSave`: edits bump a revision, saves carry the revision of their edit through a timer, a delay
    and the latest-only queue, and a finished save is acknowledged only if its revision is still current. */
module DraftEditor {
  import opened Common
  import SaveQueue

  /** The arguments `updateGraphFromCanvas` closes over for one edit. `edit` names that edit; no test looks at it. */
  datatype Save<G> = Save(definition: nat, revision: nat, graph: G, edit: nat)

  /** A running browser timeout: the 200 ms autosave of an edit, or the 50 ms its save then waits. */
  datatype Timeout<G> = Autosave(save: Save<G>) | Delay(save: Save<G>)

  function Milliseconds<G>(t: Timeout<G>): nat {
    if t.Autosave? then 200 else 50
  }

  /** The order the HTML standard prescribes for timeouts, given in the order they were started: one fires only
      after those started before it whose duration is no longer than its own. */
  predicate MayFire<G>(timeouts: seq<Timeout<G>>, k: nat) {
    k < |timeouts| && forall j :: 0 <= j < k ==> Milliseconds(timeouts[j]) > Milliseconds(timeouts[k])
  }

  /** So an autosave waits for everything started before it, and a delay for earlier delays only. */
  lemma MayFireIff<G>(timeouts: seq<Timeout<G>>, k: nat)
    requires k < |timeouts|
    ensures MayFire(timeouts, k) <==> k == 0 || (timeouts[k].Delay? && forall j :: 0 <= j < k ==> timeouts[j].Autosave?)
  {
    assert k > 0 ==> Milliseconds(timeouts[0]) <= 200;
  }

  /** `clearScheduledAutosave` stops the autosave but no delay. */
  function Cancelled<G>(timeouts: seq<Timeout<G>>): seq<Timeout<G>> {
    if timeouts == [] then []
    else (if timeouts[0].Autosave? then [] else [timeouts[0]]) + Cancelled(timeouts[1..])
  }

  /** What orders the details of a definition: when it was updated, then the id of its draft. */
  datatype Version = Version(definition: nat, updatedAt: int, draft: int)

  predicate OlderThanShown(v: Version, shown: Option<Version>) {
    && shown.Some? && v.definition == shown.value.definition
    && (v.updatedAt < shown.value.updatedAt || (v.updatedAt == shown.value.updatedAt && v.draft < shown.value.draft))
  }

  /** How far a switch to another definition has come: it waits for the queue, PATCHes the canvas itself, and then
      empties the editor. */
  datatype Leaving<G> = Staying | Waiting(definition: nat) | Patching(definition: nat, graph: G) | Stored

  /** `timeouts` are those running, in the order they were started, `shown` the version last shown or saved, `hydrated`
      the draft last loaded, acknowledged or stored by a switch, `server` the drafts the server is known to hold
      and `acked` the saves acknowledged, in order. */
  datatype Editor<G> = Editor(
    selected: Option<nat>, owner: Option<nat>, revision: nat, graph: Option<G>, dirty: bool, shown: Option<Version>,
    timeouts: seq<Timeout<G>>, queue: SaveQueue.Queue<Save<G>>, server: map<nat, G>, acked: seq<Save<G>>,
    leaving: Leaving<G>, hydrated: Option<G>)

  function Fresh<G>(): Editor<G> {
    Editor(None, None, 0, None, false, None, [], SaveQueue.Empty(), map[], [], Staying, None)
  }

  predicate Owned<G>(e: Editor<G>) {
    e.selected.Some? && e.owner == e.selected
  }

  predicate Accepts<G>(e: Editor<G>) {
    Owned(e) && e.leaving.Staying?
  }

  /** An edit the canvas accepts; refused while the selected definition is not the one loaded, or is being left. */
  function Edited<G>(e: Editor<G>, g: G, immediate: bool, edit: nat): Editor<G> {
    if !Accepts(e) then e
    else
      var save := Save(e.selected.value, e.revision + 1, g, edit);
      var e1 := e.(revision := e.revision + 1, graph := Some(g), dirty := true, timeouts := Cancelled(e.timeouts));
      if immediate then e1.(queue := SaveQueue.Enqueued(e1.queue, save))
      else e1.(timeouts := e1.timeouts + [Autosave(save)])
  }

  /** The `k`-th timeout fires. An autosave starts its delay; a delayed save is queued if its definition is still
      selected and loaded, else forgotten. */
  function Fired<G>(e: Editor<G>, k: nat): Editor<G>
    requires k < |e.timeouts|
  {
    var rest := e.timeouts[..k] + e.timeouts[k + 1..];
    match e.timeouts[k]
    case Autosave(save) => e.(timeouts := rest + [Delay(save)])
    case Delay(save) =>
      var e1 := e.(timeouts := rest);
      if e.selected == e.owner == Some(save.definition) then e1.(queue := SaveQueue.Enqueued(e1.queue, save)) else e1
  }

  /** Acknowledged: nothing is waiting behind it, and its definition and revision are still the current ones. */
  predicate Acknowledges<G>(e: Editor<G>, save: Save<G>) {
    e.queue.pending.None? && e.selected == Some(save.definition) && e.revision == save.revision
  }

  /** A loaded draft replaces the canvas unless a newer version is shown; the revision is left alone. */
  function Hydrated<G>(e: Editor<G>, d: nat, g: G, v: Version): Editor<G> {
    if OlderThanShown(v, e.shown) then e
    else e.(owner := Some(d), graph := Some(g), dirty := false, shown := Some(v), hydrated := Some(g))
  }

  /** A PATCH succeeded and returned version `v`. Acknowledging it makes the editor clean, and shows the saved draft
      if the canvas shows something else. */
  function Saved<G(==)>(e: Editor<G>, w: nat, v: Version): Editor<G>
    requires w in e.queue.workers
  {
    var save := e.queue.workers[w];
    var e1 := e.(queue := SaveQueue.Fulfilled(e.queue, w), server := e.server[save.definition := save.graph]);
    if !Acknowledges(e, save) then e1
    else
      var e2 := e1.(acked := e.acked + [save], shown := Some(v), hydrated := Some(save.graph));
      if e.graph == Some(save.graph) then e2.(dirty := false) else Hydrated(e2, save.definition, save.graph, v)
  }

  /** A switch that waits for the queue fails with it. */
  function SaveFailed<G>(e: Editor<G>, w: nat): Editor<G>
    requires w in e.queue.workers
  {
    e.(queue := SaveQueue.Rejected(e.queue, w), leaving := if e.leaving.Waiting? then Staying else e.leaving)
  }

  /** Selecting another definition resets the revision counter. */
  function Selected<G>(e: Editor<G>, d: Option<nat>): Editor<G> {
    if d == e.selected then e else e.(selected := d, revision := 0, dirty := false, shown := None, hydrated := None)
  }

  /** Emptying the editor resets the counter, too, and stops the autosave. */
  function Blanked<G>(e: Editor<G>): Editor<G> {
    e.(owner := None, revision := 0, graph := None, dirty := false, shown := None, hydrated := None,
       timeouts := Cancelled(e.timeouts))
  }

  /** A switch begins: the revision moves on, and the autosave is stopped, but no delay. */
  function LeaveBegun<G>(e: Editor<G>): Editor<G>
    requires e.selected.Some?
  {
    e.(revision := e.revision + 1, timeouts := Cancelled(e.timeouts), leaving := Waiting(e.selected.value))
  }

  /** Once the queue is idle, a switch that has something to save PATCHes the canvas, past the queue. `renamed`: the
      name, the description or the context were changed, too. */
  predicate MaySend<G(==)>(e: Editor<G>, renamed: bool) {
    e.leaving.Waiting? && e.queue.inflight.None? && e.graph.Some? && (renamed || (e.dirty && e.graph != e.hydrated))
  }

  /** It skips the PATCH of a draft that is what was hydrated. */
  predicate MaySkip<G(==)>(e: Editor<G>) {
    e.leaving.Waiting? && e.queue.inflight.None? && e.graph.Some? && e.dirty && e.graph == e.hydrated
  }

  /** A switch ends when the draft is stored, or there was nothing to store, or the user gives it up. */
  predicate MayDepart<G>(e: Editor<G>, unsaved: bool) {
    match e.leaving
    case Stored => true
    case Waiting(_) => !e.dirty
    case Patching(_, _) => false
    case Staying => unsaved || e.selected.None?
  }

  /** Once the queue is idle, what a waiting switch does next is determined: it PATCHes what was edited or renamed,
      skips the PATCH of what was edited back, and departs if nothing was edited. */
  lemma SwitchIsDetermined<G>(e: Editor<G>, unsaved: bool)
    requires e.leaving.Waiting? && e.queue.inflight.None? && e.graph.Some?
    ensures MaySend(e, true) && (MaySend(e, false) <==> e.dirty && e.graph != e.hydrated)
    ensures MaySkip(e) <==> e.dirty && e.graph == e.hydrated
    ensures MayDepart(e, unsaved) <==> !e.dirty
  {
  }

  function LeaveSent<G>(e: Editor<G>): Editor<G>
    requires e.leaving.Waiting? && e.graph.Some?
  {
    e.(leaving := Patching(e.leaving.definition, e.graph.value))
  }

  function LeaveStored<G>(e: Editor<G>): Editor<G>
    requires e.leaving.Patching?
  {
    e.(server := e.server[e.leaving.definition := e.leaving.graph], hydrated := Some(e.leaving.graph), dirty := false,
       leaving := Stored)
  }

  /** A switch that has stored its draft always departs, one in the middle of its PATCH never does, and without one the
      user must leave the draft unsaved or have none selected. */
  lemma OthersDepart<G>(e: Editor<G>, unsaved: bool)
    requires !e.leaving.Waiting?
    ensures MayDepart(e, unsaved) <==>
      e.leaving == Stored || (e.leaving == Staying && (e.selected == None || unsaved))
  {
  }

  function Departed<G>(e: Editor<G>, d: nat): Editor<G> {
    Selected(Blanked(e), Some(d)).(leaving := Staying)
  }

  /** Reloading the draft moves the revision on before it loads anything. */
  function ReloadBegun<G>(e: Editor<G>): Editor<G> {
    e.(revision := e.revision + 1)
  }

  /** Does an edit without leave to shrink drop a node or an edge that is there? */
  predicate Drops<G>(graph: Option<G>, next: G, nodes: G -> set<string>, edges: G -> set<string>) {
    graph.Some? && !(nodes(graph.value) <= nodes(next) && edges(graph.value) <= edges(next))
  }

  class CanvasDraft<G(==)> {
    var selected: Option<nat>
    var owner: Option<nat>
    var revision: nat
    var graph: Option<G>
    var dirty: bool
    var shown: Option<Version>
    var timeouts: seq<Timeout<G>>
    const queue: SaveQueue.LatestOnlyQueue<Save<G>>
    var server: map<nat, G>
    var acked: seq<Save<G>>
    var leaving: Leaving<G>
    var hydrated: Option<G>
    const nodeKeys: G -> set<string>
    const edgeKeys: G -> set<string>

    ghost function View(): Editor<G>
      reads this, queue
    {
      Editor(selected, owner, revision, graph, dirty, shown, timeouts, queue.View(), server, acked,
             leaving, hydrated)
    }

    ghost predicate Valid()
      reads this, queue
    {
      SaveQueue.Sound(queue.View())
    }

    constructor (nodeKeys: G -> set<string>, edgeKeys: G -> set<string>)
      ensures View() == Fresh() && Valid() && fresh(queue)
      ensures this.nodeKeys == nodeKeys && this.edgeKeys == edgeKeys
    {
      selected, owner, revision, graph, dirty, shown := None, None, 0, None, false, None;
      timeouts, server, acked, leaving, hydrated := [], map[], [], Staying, None;
      queue := new SaveQueue.LatestOnlyQueue();
      this.nodeKeys, this.edgeKeys := nodeKeys, edgeKeys;
    }

    /** `loading`: the definition switched to is not there yet. `contextOk`: the context form holds valid JSON. */
    method UpdateGraphFromCanvas(g: G, immediate: bool, edit: nat, allowShrink: bool, loading: bool, contextOk: bool)
      requires Valid()
      modifies this, queue
      ensures Valid()
      ensures
        View() == if loading || (!allowShrink && Drops(old(graph), g, nodeKeys, edgeKeys)) || !contextOk
                  then old(View()) else Edited(old(View()), g, immediate, edit)
      ensures
        var canvas := old(graph);
        var keepsAll := canvas.Some? ==>
          && (forall node :: node in nodeKeys(canvas.value) ==> node in nodeKeys(g))
          && (forall edge :: edge in edgeKeys(canvas.value) ==> edge in edgeKeys(g));
        if old(selected.Some? && owner == selected && leaving == Staying) && !loading && contextOk
           && (allowShrink || keepsAll)
        then revision == old(revision) + 1 && graph == Some(g) && dirty
        else View() == old(View())
    {
      if selected.None? || owner != selected || !leaving.Staying? || loading {
        return;
      }
      if !allowShrink && Drops(graph, g, nodeKeys, edgeKeys) {
        return;
      }
      if !contextOk {
        return;
      }
      var definitionId := selected.value;
      revision := revision + 1;
      graph := Some(g);
      dirty := true;
      timeouts := Cancelled(timeouts);
      var save := Save(definitionId, revision, g, edit);
      if immediate {
        var _ := queue.Enqueue(save);
      } else {
        timeouts := timeouts + [Autosave(save)];
      }
    }

    method FireTimeout(k: nat)
      requires Valid() && k < |timeouts|
      modifies this, queue
      ensures Valid() && View() == Fired(old(View()), k)
    {
      var timeout := timeouts[k];
      timeouts := timeouts[..k] + timeouts[k + 1..];
      match timeout
      case Autosave(save) =>
        timeouts := timeouts + [Delay(save)];
      case Delay(save) =>
        if selected == Some(save.definition) && owner == Some(save.definition) {
          var _ := queue.Enqueue(save);
        }
    }

    method Hydrate(d: nat, g: G, v: Version)
      requires Valid()
      modifies this
      ensures Valid() && View() == Hydrated(old(View()), d, g, v)
      ensures
        var was := old(shown);
        if was.Some? && was.value.definition == v.definition
           && (v.updatedAt < was.value.updatedAt || (v.updatedAt == was.value.updatedAt && v.draft < was.value.draft))
        then View() == old(View())
        else owner == Some(d) && graph == hydrated == Some(g) && shown == Some(v) && !dirty && revision == old(revision)
    {
      if OlderThanShown(v, shown) {
        return;
      }
      shown := Some(v);
      owner, graph, dirty, hydrated := Some(d), Some(g), false, Some(g);
    }

    method SaveSucceeds(w: nat, v: Version)
      requires Valid() && w in queue.workers
      modifies this, queue
      ensures Valid() && View() == Saved(old(View()), w, v)
    {
      var save, hasPending := queue.Fulfil(w);
      server := server[save.definition := save.graph];
      var isCurrent := selected == Some(save.definition) && revision == save.revision;
      if !hasPending && isCurrent {
        acked := acked + [save];
        shown := Some(v);
        if graph != Some(save.graph) {
          Hydrate(save.definition, save.graph, v);
        } else {
          dirty, hydrated := false, Some(save.graph);
        }
      }
    }

    method SaveFails(w: nat)
      requires Valid() && w in queue.workers
      modifies this, queue
      ensures Valid() && View() == SaveFailed(old(View()), w)
    {
      var _ := queue.Reject(w);
      if leaving.Waiting? { leaving := Staying; }
    }

    method Select(d: Option<nat>)
      requires Valid()
      modifies this
      ensures Valid() && View() == Selected(old(View()), d)
    {
      if d != selected {
        selected, revision, dirty, shown, hydrated := d, 0, false, None, None;
      }
    }

    method ResetToBlank()
      requires Valid()
      modifies this
      ensures Valid() && View() == Blanked(old(View()))
    {
      timeouts := Cancelled(timeouts);
      owner, graph, dirty := None, None, false;
      revision, shown, hydrated := 0, None, None;
    }

    /** The first half of `requestDefinitionSwitch`, up to where the queue is waited for. */
    method RequestSwitch()
      requires Valid() && leaving.Staying? && selected.Some?
      modifies this
      ensures Valid() && View() == LeaveBegun(old(View()))
    {
      leaving := Waiting(selected.value);
      revision := revision + 1;
      timeouts := Cancelled(timeouts);
    }

    method SendBeforeSwitch(renamed: bool)
      requires Valid() && MaySend(View(), renamed)
      modifies this
      ensures Valid() && View() == LeaveSent(old(View()))
    {
      leaving := Patching(leaving.definition, graph.value);
    }

    method SkipBeforeSwitch()
      requires Valid() && MaySkip(View())
      modifies this
      ensures Valid() && View() == old(View()).(dirty := false)
    {
      dirty := false;
    }

    method SwitchStored()
      requires Valid() && leaving.Patching?
      modifies this
      ensures Valid() && View() == LeaveStored(old(View()))
    {
      server := server[leaving.definition := leaving.graph];
      hydrated := Some(leaving.graph);
      dirty := false;
      leaving := Stored;
    }

    method SwitchFails()
      requires Valid() && !leaving.Staying?
      modifies this
      ensures Valid() && View() == old(View()).(leaving := Staying)
    {
      leaving := Staying;
    }

    method Depart(d: nat, unsaved: bool)
      requires Valid() && MayDepart(View(), unsaved)
      modifies this
      ensures Valid() && View() == Departed(old(View()), d)
    {
      ResetToBlank();
      Select(Some(d));
      leaving := Staying;
    }

    method ReloadDraft()
      requires Valid()
      modifies this
      ensures Valid() && View() == ReloadBegun(old(View()))
    {
      revision := revision + 1;
    }
  }

  // Whole runs. Graphs with the same content have the same name; an edit is named by its position in the run. `Serves`:
  // the server has that draft of a definition, from an earlier session or another writer.

  datatype Event =
    | Edit(g: nat, immediate: bool)
    | Fires(k: nat)
    | Succeeds(w: nat, version: Version)
    | Fails(w: nat)
    | Selects(d: Option<nat>)
    | Blanks
    | Hydrates(loaded: nat, g: nat, version: Version)
    | Leaves | Sends(renamed: bool) | Skips | Stores | LeaveFails
    | Departs(to: nat, unsaved: bool)
    | Reloads
    | Serves(of: nat, g: nat)

  ghost predicate Enabled(e: Editor<nat>, ev: Event) {
    && (ev.Fires? ==> MayFire(e.timeouts, ev.k))
    && (ev.Succeeds? || ev.Fails? ==> ev.w in e.queue.workers)
    && (ev.Leaves? ==> e.leaving.Staying? && e.selected.Some?)
    && (ev.Sends? ==> MaySend(e, ev.renamed))
    && (ev.Skips? ==> MaySkip(e))
    && (ev.Stores? ==> e.leaving.Patching?)
    && (ev.LeaveFails? ==> !e.leaving.Staying?)
    && (ev.Departs? ==> MayDepart(e, ev.unsaved))
  }

  ghost function Step(e: Editor<nat>, ev: Event, at: nat): Editor<nat>
    requires Enabled(e, ev)
  {
    match ev
    case Edit(g, immediate) => Edited(e, g, immediate, at)
    case Fires(k) => Fired(e, k)
    case Succeeds(w, version) => Saved(e, w, version)
    case Fails(w) => SaveFailed(e, w)
    case Selects(d) => Selected(e, d)
    case Blanks => Blanked(e)
    case Hydrates(loaded, g, version) => Hydrated(e, loaded, g, version)
    case Leaves => LeaveBegun(e)
    case Sends(_) => LeaveSent(e)
    case Skips => e.(dirty := false)
    case Stores => LeaveStored(e)
    case LeaveFails => e.(leaving := Staying)
    case Departs(to, _) => Departed(e, to)
    case Reloads => ReloadBegun(e)
    case Serves(of, g) => e.(server := e.server[of := g])
  }

  ghost function After(run: seq<Event>): Option<Editor<nat>> {
    if run == [] then Some(Fresh())
    else
      var before, ev := After(run[..|run| - 1]), run[|run| - 1];
      if before.Some? && Enabled(before.value, ev) then Some(Step(before.value, ev, |run| - 1)) else None
  }

  /** The last edit the canvas accepted. */
  ghost function Newest(run: seq<Event>): Option<nat> {
    if run == [] then None
    else
      var front := run[..|run| - 1];
      if run[|run| - 1].Edit? && After(front).Some? && Accepts(After(front).value) then Some(|run| - 1)
      else Newest(front)
  }

  ghost predicate Resets(e: Editor<nat>, ev: Event) {
    ev.Blanks? || ev.Departs? || (ev.Selects? && ev.d != e.selected)
  }

  /** The first position after the last reset of the revision counter. */
  ghost function EpochStart(run: seq<Event>): nat {
    if run == [] then 0
    else
      var front := run[..|run| - 1];
      if After(front).Some? && Resets(After(front).value, run[|run| - 1]) then |run| else EpochStart(front)
  }

  /** Every save that can still reach the server or be acknowledged. */
  ghost predicate Outstanding(e: Editor<nat>, s: Save<nat>) {
    || Autosave(s) in e.timeouts
    || Delay(s) in e.timeouts
    || e.queue.pending == Some(s)
    || s in e.queue.workers.Values
  }

  /** Since the last reset, revisions number the edits: the current one can belong to the newest edit only. */
  ghost predicate Tracks(run: seq<Event>, e: Editor<nat>, s: Save<nat>) {
    && s.revision > 0
    && s.edit < |run| && run[s.edit].Edit? && run[s.edit].g == s.graph
    && (s.edit >= EpochStart(run) ==>
          s.revision <= e.revision && (s.revision == e.revision ==> Newest(run) == Some(s.edit)))
  }

  ghost predicate CountsFromReset(run: seq<Event>, e: Editor<nat>) {
    && SaveQueue.Sound(e.queue)
    && EpochStart(run) <= |run|
    && (Newest(run).Some? ==> Newest(run).value < |run|)
  }

  ghost predicate RevisionsTrackEdits(run: seq<Event>) {
    After(run).Some? ==>
      var e := After(run).value;
      CountsFromReset(run, e) && forall s :: Outstanding(e, s) ==> Tracks(run, e, s)
  }

  lemma {:induction false} CancelledKeepsDelays<G>(timeouts: seq<Timeout<G>>, t: Timeout<G>)
    ensures t in Cancelled(timeouts) <==> t in timeouts && t.Delay?
  {
    if timeouts != [] {
      CancelledKeepsDelays(timeouts[1..], t);
      assert timeouts == [timeouts[0]] + timeouts[1..];
    }
  }

  /** A timeout that fires makes no save outstanding that was not. */
  lemma OutstandingFired(e: Editor<nat>, k: nat, s: Save<nat>)
    requires SaveQueue.Sound(e.queue) && k < |e.timeouts| && Outstanding(Fired(e, k), s)
    ensures Outstanding(e, s)
  {
    var e' := Fired(e, k);
    assert e.timeouts[k] in e.timeouts;
    forall t | t in e'.timeouts ensures t in e.timeouts || t == Delay(e.timeouts[k].save) {
      if t in e.timeouts[k + 1..] { assert t in e.timeouts; }
    }
  }

  /** A step makes no save outstanding but the one of its own edit. */
  lemma OutstandingAfter(e: Editor<nat>, ev: Event, at: nat, s: Save<nat>)
    requires SaveQueue.Sound(e.queue) && Enabled(e, ev)
    requires Outstanding(Step(e, ev, at), s)
    ensures
      Outstanding(e, s) || (ev.Edit? && Accepts(e) && s == Save(e.selected.value, e.revision + 1, ev.g, at))
  {
    match ev
    case Fires(k) => OutstandingFired(e, k, s);
    case Edit(_, _) =>
      CancelledKeepsDelays(e.timeouts, Autosave(s));
      CancelledKeepsDelays(e.timeouts, Delay(s));
    case Blanks =>
      CancelledKeepsDelays(e.timeouts, Autosave(s));
      CancelledKeepsDelays(e.timeouts, Delay(s));
    case Leaves =>
      CancelledKeepsDelays(e.timeouts, Autosave(s));
      CancelledKeepsDelays(e.timeouts, Delay(s));
    case Departs(_, _) =>
      CancelledKeepsDelays(e.timeouts, Autosave(s));
      CancelledKeepsDelays(e.timeouts, Delay(s));
    case _ =>
  }

  lemma LastStep(run: seq<Event>, ev: Event)
    requires After(run + [ev]).Some?
    ensures After(run).Some? && Enabled(After(run).value, ev)
    ensures After(run + [ev]) == Some(Step(After(run).value, ev, |run|))
    ensures Newest(run + [ev]) == if ev.Edit? && Accepts(After(run).value) then Some(|run|) else Newest(run)
    ensures EpochStart(run + [ev]) == if Resets(After(run).value, ev) then |run| + 1 else EpochStart(run)
  {
    assert (run + [ev])[..|run|] == run;
  }

  lemma StaysSound(e: Editor<nat>, ev: Event, at: nat)
    requires SaveQueue.Sound(e.queue) && Enabled(e, ev)
    ensures SaveQueue.Sound(Step(e, ev, at).queue)
  {
  }

  lemma StepCounts(run: seq<Event>, ev: Event)
    requires After(run).Some? && After(run + [ev]).Some? && CountsFromReset(run, After(run).value)
    ensures CountsFromReset(run + [ev], After(run + [ev]).value)
  {
    LastStep(run, ev);
    StaysSound(After(run).value, ev, |run|);
  }

  lemma StepTracks(run: seq<Event>, ev: Event, s: Save<nat>)
    requires After(run + [ev]).Some? && RevisionsTrackEdits(run)
    requires Outstanding(After(run + [ev]).value, s)
    ensures Tracks(run + [ev], After(run + [ev]).value, s)
  {
    LastStep(run, ev);
    var e := After(run).value;
    OutstandingAfter(e, ev, |run|, s);
    if Outstanding(e, s) {
      assert Tracks(run, e, s);
      assert (run + [ev])[s.edit] == run[s.edit];
    }
  }

  lemma {:induction false} RevisionsAlwaysTrackEdits(run: seq<Event>)
    ensures RevisionsTrackEdits(run)
  {
    if run != [] && After(run).Some? {
      var front, ev := run[..|run| - 1], run[|run| - 1];
      assert run == front + [ev];
      RevisionsAlwaysTrackEdits(front);
      StepCounts(front, ev);
      forall s | Outstanding(After(run).value, s) ensures Tracks(run, After(run).value, s) {
        StepTracks(front, ev, s);
      }
    }
  }

  /** Something was edited since the last reset. */
  ghost predicate EditedSinceReset(run: seq<Event>) {
    Newest(run).Some? && Newest(run).value >= EpochStart(run)
  }

  /** Whatever the interleaving of edits, timers, delays, late completions, switches and reloads: an acknowledged save
      whose edit was made after the last reset of the revision counter carries the newest edit, and once anything was
      edited since, only such a save does. */
  lemma AcknowledgedIffSameEpoch(run: seq<Event>, w: nat)
    requires After(run).Some? && w in After(run).value.queue.workers
    requires Acknowledges(After(run).value, After(run).value.queue.workers[w])
    ensures
      var save := After(run).value.queue.workers[w];
      && (save.edit >= EpochStart(run) ==> Newest(run) == Some(save.edit))
      && (EditedSinceReset(run) ==> (Newest(run) == Some(save.edit) <==> save.edit >= EpochStart(run)))
  {
    RevisionsAlwaysTrackEdits(run);
    var e := After(run).value;
    var save := e.queue.workers[w];
    assert save in e.queue.workers.Values;
    assert Outstanding(e, save);
    assert Tracks(run, e, save);
  }

  /** Without a reset between the edits, every acknowledged draft is the newest edit. */
  lemma AcknowledgedIsNewest(run: seq<Event>, w: nat)
    requires After(run).Some? && w in After(run).value.queue.workers
    requires Acknowledges(After(run).value, After(run).value.queue.workers[w])
    requires forall i :: 0 <= i < EpochStart(run) && i < |run| ==> !run[i].Edit?
    ensures Newest(run) == Some(After(run).value.queue.workers[w].edit)
  {
    AcknowledgedIffSameEpoch(run, w);
    RevisionsAlwaysTrackEdits(run);
    var e := After(run).value;
    var save := e.queue.workers[w];
    assert save in e.queue.workers.Values;
    assert Outstanding(e, save);
    assert Tracks(run, e, save);
  }

  lemma Extend(run: seq<Event>, ev: Event)
    requires After(run).Some? && Enabled(After(run).value, ev)
    ensures After(run + [ev]) == Some(Step(After(run).value, ev, |run|))
  {
  }

  /** An edit's save is under way; the definition was left and is selected and loaded again. */
  lemma Returned() returns (run: seq<Event>)
    ensures |run| == 7 && After(run).Some?
    ensures
      var e := After(run).value;
      && e.selected == e.owner == Some(1) && e.revision == 0 && e.graph == Some(0) && e.leaving.Staying?
      && e.timeouts == [] && e.acked == [] && e.server == map[]
      && e.queue == SaveQueue.Queue(Some(0), None, map[0 := Save(1, 1, 10, 2)], 1, [Save(1, 1, 10, 2)])
  {
    var v := Version(1, 0, 0);
    run := [];
    Extend(run, Selects(Some(1))); run := run + [Selects(Some(1))];
    Extend(run, Hydrates(1, 0, v)); run := run + [Hydrates(1, 0, v)];
    Extend(run, Edit(10, true)); run := run + [Edit(10, true)];
    Extend(run, Selects(Some(2))); run := run + [Selects(Some(2))];
    Extend(run, Hydrates(2, 1, v)); run := run + [Hydrates(2, 1, v)];
    Extend(run, Selects(Some(1))); run := run + [Selects(Some(1))];
    Extend(run, Hydrates(1, 0, v)); run := run + [Hydrates(1, 0, v)];
  }

  /** The hypothesis is needed: leaving a definition and coming back resets the counter. The save of the edit made
      before is then acknowledged in place of the one made after, and takes that one off the canvas. */
  lemma ResetAcknowledgesOldEdit() returns (run: seq<Event>)
    ensures |run| == 9 && After(run).Some? && Newest(run) == Some(7) && run[7] == Edit(20, false)
    ensures
      var e := After(run).value;
      e.acked == [Save(1, 1, 10, 2)] && !e.dirty && e.graph == Some(10) && e.server == map[1 := 10]
  {
    var back := Returned();
    Extend(back, Edit(20, false));
    var edited := back + [Edit(20, false)];
    assert edited[..7] == back && Newest(edited) == Some(7);
    var done := Succeeds(0, Version(1, 0, 0));
    Extend(edited, done);
    run := edited + [done];
    assert run[..8] == edited;
  }

  // Does a clean editor mean that the server holds the newest edit?

  /** Timeouts are one at a time: at most one save sleeps, ahead of at most one autosave. */
  ghost predicate OneSleeps<G>(timeouts: seq<Timeout<G>>) {
    |timeouts| <= 2 && (|timeouts| == 2 ==> timeouts[0].Delay? && timeouts[1].Autosave?)
  }

  lemma CancelledLeavesSleeper<G>(timeouts: seq<Timeout<G>>)
    requires OneSleeps(timeouts)
    ensures Cancelled(timeouts) == if timeouts != [] && timeouts[0].Delay? then [timeouts[0]] else []
  {
    if timeouts != [] && timeouts[1..] != [] {
      assert timeouts[1..][1..] == [];
    }
  }

  /** Because a delay is shorter than the autosave started behind it, no two saves are ever asleep. */
  lemma {:induction false} AtMostOneSleeps(run: seq<Event>)
    requires After(run).Some?
    ensures OneSleeps(After(run).value.timeouts)
  {
    if run != [] {
      AtMostOneSleeps(run[..|run| - 1]);
      CancelledLeavesSleeper(After(run[..|run| - 1]).value.timeouts);
    }
  }

  /** Events other than editing, selecting, loading and leaving: timeouts and the outcomes of saves. */
  predicate Ordinary(ev: Event) {
    ev.Fires? || ev.Succeeds? || ev.Fails?
  }

  /** Events other than editing, loading, discarding edits and other selections: those of a switch, too. */
  predicate Tame(ev: Event) {
    || Ordinary(ev) || ev.Leaves? || ev.Sends? || ev.Skips? || ev.Stores? || ev.LeaveFails?
    || (ev.Departs? && !ev.unsaved)
  }

  predicate AllOrdinary(ext: seq<Event>) {
    forall i :: 0 <= i < |ext| ==> Ordinary(ext[i])
  }

  predicate AllTame(ext: seq<Event>) {
    forall i :: 0 <= i < |ext| ==> Tame(ext[i])
  }

  /** A run and one that goes on from it, with or without leaving. */
  ghost predicate Goes(run: seq<Event>, r: seq<Event>, here: bool) {
    && run <= r && After(r).Some? && AllTame(r[|run|..]) && (here ==> AllOrdinary(r[|run|..]))
  }

  lemma GoesNowhere(run: seq<Event>)
    requires After(run).Some?
    ensures Goes(run, run, true)
  {
  }

  lemma GoesOn(run: seq<Event>, r: seq<Event>, ev: Event, here: bool)
    requires Goes(run, r, here) && Enabled(After(r).value, ev) && Tame(ev) && (here ==> Ordinary(ev))
    ensures Goes(run, r + [ev], here) && After(r + [ev]) == Some(Step(After(r).value, ev, |r|))
  {
    Extend(r, ev);
    assert (r + [ev])[|run|..] == r[|run|..] + [ev];
  }

  lemma GoesTwice(x: seq<Event>, y: seq<Event>, z: seq<Event>, here: bool)
    requires Goes(x, y, here) && Goes(y, z, here)
    ensures Goes(x, z, here)
  {
    assert z[|x|..] == y[|x|..] + z[|y|..];
  }

  /** A run that has just accepted an edit. */
  ghost predicate JustEdited(run: seq<Event>) {
    run != [] && After(run).Some? && run[|run| - 1].Edit? && Accepts(After(run[..|run| - 1]).value)
  }

  /** The definition that was edited. */
  ghost function DefinitionOf(run: seq<Event>): nat
    requires JustEdited(run)
  {
    After(run).value.selected.value
  }

  ghost function GraphOf(run: seq<Event>): nat
    requires JustEdited(run)
  {
    run[|run| - 1].g
  }

  ghost predicate Holds(e: Editor<nat>, d: nat, g: nat) {
    d in e.server && e.server[d] == g
  }

  /** The save the queue would end with. */
  ghost function Last(q: SaveQueue.Queue<Save<nat>>): Option<Save<nat>> {
    if q.pending.Some? then q.pending
    else if q.inflight.Some? && q.inflight.value in q.workers then Some(q.workers[q.inflight.value])
    else None
  }

  /** Every queued save of the definition carries the graph. */
  ghost predicate QueuedOnly(q: SaveQueue.Queue<Save<nat>>, d: nat, g: nat) {
    && (q.pending.Some? && q.pending.value.definition == d ==> q.pending.value.graph == g)
    && (forall w :: w in q.workers && q.workers[w].definition == d ==> q.workers[w].graph == g)
  }

  ghost predicate TimeoutsOnly(timeouts: seq<Timeout<nat>>, d: nat, g: nat) {
    forall t :: t in timeouts && t.save.definition == d ==> t.save.graph == g
  }

  /** A save of the definition that carries another graph is inside its delay. */
  ghost predicate OtherSleeps(timeouts: seq<Timeout<nat>>, d: nat, g: nat) {
    exists s: Save<nat> :: Delay(s) in timeouts && s.definition == d && s.graph != g
  }

  lemma CancelledIsPart<G>(timeouts: seq<Timeout<G>>, t: Timeout<G>)
    requires t in Cancelled(timeouts)
    ensures t in timeouts
  {
    CancelledKeepsDelays(timeouts, t);
  }

  lemma QueueStaysSound(run: seq<Event>)
    requires After(run).Some?
    ensures SaveQueue.Sound(After(run).value.queue)
  {
    RevisionsAlwaysTrackEdits(run);
  }

  /** What an accepted edit leaves. */
  lemma EditLeaves(run: seq<Event>)
    requires JustEdited(run)
    ensures
      var e, d, g, last := After(run).value, DefinitionOf(run), GraphOf(run), run[|run| - 1];
      && e.dirty && e.selected == e.owner == Some(d) && e.graph == Some(g) && e.leaving.Staying?
      && SaveQueue.Sound(e.queue) && OneSleeps(e.timeouts)
      && (forall t :: t in e.timeouts && t.Autosave? ==> t.save.definition == d && t.save.graph == g)
      && (last.immediate ==> Last(e.queue) == Some(Save(d, e.revision, g, |run| - 1)))
      && (!last.immediate ==> e.queue == After(run[..|run| - 1]).value.queue)
  {
    var front, e := run[..|run| - 1], After(run).value;
    QueueStaysSound(front);
    AtMostOneSleeps(front);
    AtMostOneSleeps(run);
    forall t | t in e.timeouts && t.Autosave?
      ensures t.save.definition == DefinitionOf(run) && t.save.graph == GraphOf(run)
    {
      if t in Cancelled(After(front).value.timeouts) { CancelledKeepsDelays(After(front).value.timeouts, t); }
    }
  }

  lemma FiringIsPart(e: Editor<nat>, k: nat, d: nat, g: nat)
    requires k < |e.timeouts| && TimeoutsOnly(e.timeouts, d, g)
    ensures TimeoutsOnly(Fired(e, k).timeouts, d, g)
    ensures e.timeouts[k].save.definition == d ==> e.timeouts[k].save.graph == g
  {
    var rest := e.timeouts[..k] + e.timeouts[k + 1..];
    assert e.timeouts[k] in e.timeouts;
    forall t | t in rest ensures t in e.timeouts {
      if t in e.timeouts[k + 1..] { assert t in e.timeouts; }
    }
  }

  lemma CancelledOnly(timeouts: seq<Timeout<nat>>, d: nat, g: nat)
    requires TimeoutsOnly(timeouts, d, g)
    ensures TimeoutsOnly(Cancelled(timeouts), d, g)
  {
    forall t | t in Cancelled(timeouts) ensures t in timeouts { CancelledIsPart(timeouts, t); }
  }

  // As long as the definition is not left

  /** After the edit, whatever timers and queued saves do: if the editor is clean, the server holds the edit. */
  ghost predicate CleanMeansStoredHere(run: seq<Event>) {
    JustEdited(run) ==>
      forall ext :: AllOrdinary(ext) && After(run + ext).Some? && !After(run + ext).value.dirty ==>
        Holds(After(run + ext).value, DefinitionOf(run), GraphOf(run))
  }

  /** The save the queue would end with is one the editor would take for the newest. */
  ghost predicate EndsCurrent(e: Editor<nat>, d: nat) {
    Last(e.queue).Some? && Last(e.queue).value.definition == d && Last(e.queue).value.revision == e.revision
  }

  /** Such a save carries the edit, and a sleeping save that does not is neither taken for the newest itself nor able to
      land after one that is. */
  ghost predicate GuardedHere(e: Editor<nat>, d: nat, g: nat) {
    && (EndsCurrent(e, d) ==> Last(e.queue).value.graph == g)
    && (forall s: Save<nat> :: Delay(s) in e.timeouts && s.definition == d && s.graph != g ==>
          s.revision != e.revision && !EndsCurrent(e, d))
  }

  ghost predicate UnstoredHere(e: Editor<nat>, d: nat, g: nat) {
    && e.dirty && SaveQueue.Sound(e.queue) && e.selected == e.owner == Some(d) && e.graph == Some(g)
    && OneSleeps(e.timeouts) && GuardedHere(e, d, g)
    && (forall t :: t in e.timeouts && t.Autosave? ==> t.save.definition == d && t.save.graph == g)
  }

  ghost predicate StoredHere(e: Editor<nat>, d: nat, g: nat) {
    && SaveQueue.Sound(e.queue) && e.selected == Some(d) && e.graph == Some(g)
    && Holds(e, d, g) && QueuedOnly(e.queue, d, g) && TimeoutsOnly(e.timeouts, d, g)
  }

  /** Only the oldest timeout can fire. */
  lemma FirstFires<G>(timeouts: seq<Timeout<G>>, k: nat)
    requires OneSleeps(timeouts) && MayFire(timeouts, k)
    ensures k == 0
  {
    assert k > 0 ==> Milliseconds(timeouts[0]) > Milliseconds(timeouts[k]);
  }

  lemma FiresHere(e: Editor<nat>, d: nat, g: nat, k: nat)
    requires UnstoredHere(e, d, g) && MayFire(e.timeouts, k)
    ensures UnstoredHere(Fired(e, k), d, g)
  {
    FirstFires(e.timeouts, k);
    var first, e' := e.timeouts[0], Fired(e, 0);
    assert first in e.timeouts;
    assert e.timeouts[..0] + e.timeouts[1..] == e.timeouts[1..];
    forall t | t in e'.timeouts ensures t in e.timeouts || t == Delay(first.save) {
      if t in e.timeouts[1..] { assert t in e.timeouts; }
    }
  }

  lemma StepHere(e: Editor<nat>, d: nat, g: nat, ev: Event, at: nat)
    requires (UnstoredHere(e, d, g) || StoredHere(e, d, g)) && Ordinary(ev) && Enabled(e, ev)
    ensures UnstoredHere(Step(e, ev, at), d, g) || StoredHere(Step(e, ev, at), d, g)
  {
    match ev
    case Fires(k) =>
      if StoredHere(e, d, g) { FiringIsPart(e, k, d, g); } else { FiresHere(e, d, g, k); }
    case Succeeds(w, v) =>
      if !StoredHere(e, d, g) && Acknowledges(e, e.queue.workers[w]) {
        assert Last(e.queue) == Some(e.queue.workers[w]) && EndsCurrent(e, d);
      }
    case Fails(w) =>
  }

  lemma {:induction false} RunHere(run: seq<Event>, d: nat, g: nat, ext: seq<Event>)
    requires After(run).Some? && UnstoredHere(After(run).value, d, g) && AllOrdinary(ext) && After(run + ext).Some?
    ensures UnstoredHere(After(run + ext).value, d, g) || StoredHere(After(run + ext).value, d, g)
  {
    if ext == [] {
      assert run + ext == run;
    } else {
      var n := |ext| - 1;
      assert run + ext == run + ext[..n] + [ext[n]];
      LastStep(run + ext[..n], ext[n]);
      RunHere(run, d, g, ext[..n]);
      StepHere(After(run + ext[..n]).value, d, g, ext[n], |run| + n);
    }
  }

  /** A queue that ends with a save taken for the newest can run empty and have it acknowledged. */
  lemma QueueRuns(run: seq<Event>, d: nat) returns (r: seq<Event>)
    requires After(run).Some? && SaveQueue.Sound(After(run).value.queue)
    requires After(run).value.selected == After(run).value.owner == Some(d) && EndsCurrent(After(run).value, d)
    ensures Goes(run, r, true)
    ensures
      var e, e' := After(run).value, After(r).value;
      && !e'.dirty && Holds(e', d, Last(e.queue).value.graph) && e'.queue.inflight.None?
      && SaveQueue.Sound(e'.queue) && e'.timeouts == e.timeouts && e'.selected == e'.owner == Some(d)
  {
    var done := Succeeds(After(run).value.queue.inflight.value, Version(0, 0, 0));
    GoesNowhere(run);
    GoesOn(run, run, done, true);
    r := run + [done];
    if After(run).value.queue.pending.Some? {
      GoesOn(run, r, done, true);
      r := r + [done];
    }
  }

  /** With the queue idle, a sleeping save can land. */
  lemma SleeperLands(run: seq<Event>, s: Save<nat>) returns (r: seq<Event>)
    requires After(run).Some? && SaveQueue.Sound(After(run).value.queue) && After(run).value.queue.inflight.None?
    requires OneSleeps(After(run).value.timeouts) && Delay(s) in After(run).value.timeouts
    requires After(run).value.selected == After(run).value.owner == Some(s.definition) && !After(run).value.dirty
    ensures Goes(run, r, true)
    ensures !After(r).value.dirty && Holds(After(r).value, s.definition, s.graph)
  {
    var done := Succeeds(After(run).value.queue.calls, Version(0, 0, 0));
    GoesNowhere(run);
    GoesOn(run, run, Fires(0), true);
    GoesOn(run, run + [Fires(0)], done, true);
    r := run + [Fires(0)] + [done];
  }

  /** A sleeping save with the current revision can land and be acknowledged. */
  lemma CurrentSleeperLands(run: seq<Event>, s: Save<nat>) returns (r: seq<Event>)
    requires After(run).Some? && SaveQueue.Sound(After(run).value.queue) && OneSleeps(After(run).value.timeouts)
    requires Delay(s) in After(run).value.timeouts && s.revision == After(run).value.revision
    requires After(run).value.selected == After(run).value.owner == Some(s.definition)
    ensures Goes(run, r, true) && !After(r).value.dirty && Holds(After(r).value, s.definition, s.graph)
  {
    GoesNowhere(run);
    GoesOn(run, run, Fires(0), true);
    r := QueueRuns(run + [Fires(0)], s.definition);
    GoesTwice(run, run + [Fires(0)], r, true);
  }

  /** An unguarded edit can be lost without leaving: a save is taken for the newest, or lands after one that is. */
  lemma LosesHere(run: seq<Event>) returns (r: seq<Event>)
    requires JustEdited(run) && !GuardedHere(After(run).value, DefinitionOf(run), GraphOf(run))
    ensures Goes(run, r, true) && !After(r).value.dirty && !Holds(After(r).value, DefinitionOf(run), GraphOf(run))
  {
    var e, d, g := After(run).value, DefinitionOf(run), GraphOf(run);
    EditLeaves(run);
    if EndsCurrent(e, d) {
      r := QueueRuns(run, d);
      if Last(e.queue).value.graph == g {
        var s: Save<nat> :| Delay(s) in e.timeouts && s.definition == d && s.graph != g;
        var r' := SleeperLands(r, s);
        GoesTwice(run, r, r', true);
        r := r';
      }
    } else {
      var s: Save<nat> :| Delay(s) in e.timeouts && s.definition == d && s.graph != g && s.revision == e.revision;
      r := CurrentSleeperLands(run, s);
    }
  }

  lemma GoesByExtension(run: seq<Event>, r: seq<Event>, here: bool)
    requires Goes(run, r, here)
    ensures r == run + r[|run|..]
  {
  }

  /** Exactly when is a clean editor up to date, as long as the definition is not left? For every run that ends with an
      accepted edit: when its state is guarded. */
  lemma CleanMeansStoredHereIff(run: seq<Event>)
    requires JustEdited(run)
    ensures CleanMeansStoredHere(run) <==> GuardedHere(After(run).value, DefinitionOf(run), GraphOf(run))
  {
    var d, g := DefinitionOf(run), GraphOf(run);
    if GuardedHere(After(run).value, d, g) {
      EditLeaves(run);
      forall ext | AllOrdinary(ext) && After(run + ext).Some? && !After(run + ext).value.dirty
        ensures Holds(After(run + ext).value, d, g)
      {
        RunHere(run, d, g, ext);
      }
    } else {
      var r := LosesHere(run);
      GoesByExtension(run, r, true);
    }
  }

  // And if the definition may be left?

  /** After the edit, whatever timers, queued saves and switches do: if the editor is clean, the server holds the
      edit. */
  ghost predicate CleanMeansStored(run: seq<Event>) {
    JustEdited(run) ==>
      forall ext :: AllTame(ext) && After(run + ext).Some? && !After(run + ext).value.dirty ==>
        Holds(After(run + ext).value, DefinitionOf(run), GraphOf(run))
  }

  /** The save the queue would end with can still be taken for the newest, once the revision has moved on. */
  ghost predicate EndsAhead(e: Editor<nat>, d: nat) {
    Last(e.queue).Some? && Last(e.queue).value.definition == d && Last(e.queue).value.revision >= e.revision
  }

  /** No save with another graph is inside its delay, or can still be taken for the newest; and if the edit leads back
      to the draft last hydrated, the server and every queued save hold it already. */
  ghost predicate Guarded(e: Editor<nat>, d: nat, g: nat) {
    && !OtherSleeps(e.timeouts, d, g)
    && (EndsAhead(e, d) ==> Last(e.queue).value.graph == g)
    && (e.hydrated == Some(g) ==> Holds(e, d, g) && QueuedOnly(e.queue, d, g))
  }

  /** The edit is not known to be stored. */
  ghost predicate Unstored(e: Editor<nat>, d: nat, g: nat) {
    && e.dirty && SaveQueue.Sound(e.queue) && e.selected == e.owner == Some(d) && e.graph == Some(g)
    && TimeoutsOnly(e.timeouts, d, g) && (EndsAhead(e, d) ==> Last(e.queue).value.graph == g)
    && (e.hydrated == Some(g) ==> Holds(e, d, g) && QueuedOnly(e.queue, d, g))
    && match e.leaving
       case Staying => true
       case Waiting(x) => x == d
       case Patching(x, h) => x == d && h == g && QueuedOnly(e.queue, d, g)
       case Stored => false
  }

  /** The server holds the edit, and whatever can still land on its definition is the edit again. */
  ghost predicate StoredForGood(e: Editor<nat>, d: nat, g: nat) {
    && SaveQueue.Sound(e.queue) && Holds(e, d, g) && QueuedOnly(e.queue, d, g) && TimeoutsOnly(e.timeouts, d, g)
    && (e.selected == Some(d) && e.graph.Some? ==> e.graph == Some(g))
    && match e.leaving
       case Waiting(x) => e.selected == Some(x)
       case Patching(x, h) => e.selected == Some(x) && (x == d ==> h == g)
       case _ => true
  }

  lemma UnstoredStep(e: Editor<nat>, d: nat, g: nat, ev: Event, at: nat)
    requires Unstored(e, d, g) && Tame(ev) && Enabled(e, ev)
    ensures Unstored(Step(e, ev, at), d, g) || StoredForGood(Step(e, ev, at), d, g)
  {
    match ev
    case Fires(k) => FiringIsPart(e, k, d, g);
    case Succeeds(w, v) =>
      if Acknowledges(e, e.queue.workers[w]) { assert Last(e.queue) == Some(e.queue.workers[w]); }
    case Leaves => CancelledOnly(e.timeouts, d, g);
    case _ =>
  }

  lemma StoredLands(e: Editor<nat>, d: nat, g: nat, w: nat, v: Version)
    requires StoredForGood(e, d, g) && w in e.queue.workers
    ensures StoredForGood(Saved(e, w, v), d, g)
  {
    var e', save := Saved(e, w, v), e.queue.workers[w];
    assert save.definition == d ==> save.graph == g;
    assert SaveQueue.Sound(e'.queue) && QueuedOnly(e'.queue, d, g) && Holds(e', d, g);
  }

  lemma StoredStep(e: Editor<nat>, d: nat, g: nat, ev: Event, at: nat)
    requires StoredForGood(e, d, g) && Tame(ev) && Enabled(e, ev)
    ensures StoredForGood(Step(e, ev, at), d, g)
  {
    match ev
    case Fires(k) => FiringIsPart(e, k, d, g);
    case Succeeds(w, v) => StoredLands(e, d, g, w, v);
    case Leaves => CancelledOnly(e.timeouts, d, g);
    case Departs(_, _) => CancelledOnly(e.timeouts, d, g);
    case _ =>
  }

  lemma SafeStep(e: Editor<nat>, d: nat, g: nat, ev: Event, at: nat)
    requires (Unstored(e, d, g) || StoredForGood(e, d, g)) && Tame(ev) && Enabled(e, ev)
    ensures Unstored(Step(e, ev, at), d, g) || StoredForGood(Step(e, ev, at), d, g)
  {
    if Unstored(e, d, g) { UnstoredStep(e, d, g, ev, at); } else { StoredStep(e, d, g, ev, at); }
  }

  lemma {:induction false} SafeRun(run: seq<Event>, d: nat, g: nat, ext: seq<Event>)
    requires After(run).Some? && Unstored(After(run).value, d, g) && AllTame(ext) && After(run + ext).Some?
    ensures Unstored(After(run + ext).value, d, g) || StoredForGood(After(run + ext).value, d, g)
  {
    if ext == [] {
      assert run + ext == run;
    } else {
      var n := |ext| - 1;
      assert run + ext == run + ext[..n] + [ext[n]];
      LastStep(run + ext[..n], ext[n]);
      SafeRun(run, d, g, ext[..n]);
      SafeStep(After(run + ext[..n]).value, d, g, ext[n], |run| + n);
    }
  }

  lemma EditIsUnstored(run: seq<Event>)
    requires JustEdited(run) && Guarded(After(run).value, DefinitionOf(run), GraphOf(run))
    ensures Unstored(After(run).value, DefinitionOf(run), GraphOf(run))
  {
    var e, d, g := After(run).value, DefinitionOf(run), GraphOf(run);
    EditLeaves(run);
    forall t | t in e.timeouts && t.save.definition == d ensures t.save.graph == g {
      if t.Delay? { assert Delay(t.save) in e.timeouts; }
    }
  }

  // How an unguarded edit is lost

  /** The queue can run empty. */
  lemma QueueEmpties(run: seq<Event>, d: nat) returns (r: seq<Event>)
    requires After(run).Some? && SaveQueue.Sound(After(run).value.queue) && After(run).value.graph.Some?
    requires After(run).value.selected == After(run).value.owner == Some(d)
    ensures Goes(run, r, true)
    ensures
      var e, e' := After(run).value, After(r).value;
      && e'.queue.inflight.None? && SaveQueue.Sound(e'.queue) && e'.graph.Some?
      && e'.selected == e'.owner == Some(d) && e'.timeouts == e.timeouts && e'.leaving == e.leaving
  {
    r := run;
    GoesNowhere(run);
    var e := After(run).value;
    if e.queue.inflight.Some? {
      var done := Succeeds(e.queue.inflight.value, Version(0, 0, 0));
      GoesOn(run, r, done, true);
      r := r + [done];
      if e.queue.pending.Some? {
        GoesOn(run, r, done, true);
        r := r + [done];
      }
    }
  }

  /** A switch that waits, with the queue idle, can make the editor clean. */
  lemma SwitchCleans(run: seq<Event>, d: nat) returns (r: seq<Event>)
    requires After(run).Some? && SaveQueue.Sound(After(run).value.queue) && After(run).value.queue.inflight.None?
    requires After(run).value.leaving.Waiting? && After(run).value.graph.Some?
    requires After(run).value.selected == After(run).value.owner == Some(d)
    ensures Goes(run, r, false)
    ensures
      var e, e' := After(run).value, After(r).value;
      && !e'.dirty && e'.queue == e.queue && e'.timeouts == e.timeouts && e'.selected == e'.owner == Some(d)
  {
    var e := After(run).value;
    r := run;
    GoesNowhere(run);
    if e.dirty && e.graph == e.hydrated {
      GoesOn(run, r, Skips, false);
      r := r + [Skips];
    } else if e.dirty {
      GoesOn(run, r, Sends(false), false);
      r := r + [Sends(false)];
      GoesOn(run, r, Stores, false);
      r := r + [Stores];
    }
  }

  lemma SwitchedThenLands(run: seq<Event>, s: Save<nat>) returns (r: seq<Event>)
    requires After(run).Some? && SaveQueue.Sound(After(run).value.queue) && After(run).value.leaving.Waiting?
    requires After(run).value.graph.Some? && After(run).value.timeouts == [Delay(s)]
    requires After(run).value.selected == After(run).value.owner == Some(s.definition)
    ensures Goes(run, r, false) && !After(r).value.dirty && Holds(After(r).value, s.definition, s.graph)
  {
    var idle := QueueEmpties(run, s.definition);
    var clean := SwitchCleans(idle, s.definition);
    GoesTwice(run, idle, clean, false);
    r := SleeperLands(clean, s);
    GoesTwice(run, clean, r, false);
  }

  /** A save asleep when the definition is left lands after the switch has stored, or skipped, the edit. */
  lemma LeavingOverwrites(run: seq<Event>) returns (r: seq<Event>)
    requires JustEdited(run) && OtherSleeps(After(run).value.timeouts, DefinitionOf(run), GraphOf(run))
    ensures Goes(run, r, false) && !After(r).value.dirty && !Holds(After(r).value, DefinitionOf(run), GraphOf(run))
  {
    var e, d, g := After(run).value, DefinitionOf(run), GraphOf(run);
    var s: Save<nat> :| Delay(s) in e.timeouts && s.definition == d && s.graph != g;
    EditLeaves(run);
    CancelledLeavesSleeper(e.timeouts);
    GoesNowhere(run);
    GoesOn(run, run, Leaves, false);
    r := SwitchedThenLands(run + [Leaves], s);
    GoesTwice(run, run + [Leaves], r, false);
  }

  /** Failed switches can move the revision on as far as one likes. */
  lemma {:induction false} RevisionMoves(run: seq<Event>, n: nat) returns (r: seq<Event>)
    requires After(run).Some? && After(run).value.leaving.Staying? && After(run).value.selected.Some?
    ensures Goes(run, r, false)
    ensures
      var e, e' := After(run).value, After(r).value;
      && e'.revision == e.revision + n && e'.queue == e.queue && e'.leaving.Staying?
      && e'.selected == e.selected && e'.owner == e.owner
    decreases n
  {
    r := run;
    GoesNowhere(run);
    if n > 0 {
      GoesOn(run, run, Leaves, false);
      GoesOn(run, run + [Leaves], LeaveFails, false);
      var moved := run + [Leaves] + [LeaveFails];
      r := RevisionMoves(moved, n - 1);
      GoesTwice(run, moved, r, false);
    }
  }

  /** A save from before a reset can be taken for the newest. */
  lemma StaleSaveTaken(run: seq<Event>) returns (r: seq<Event>)
    requires JustEdited(run) && EndsAhead(After(run).value, DefinitionOf(run))
    requires Last(After(run).value.queue).value.graph != GraphOf(run)
    ensures Goes(run, r, false) && !After(r).value.dirty && !Holds(After(r).value, DefinitionOf(run), GraphOf(run))
  {
    var e, d := After(run).value, DefinitionOf(run);
    EditLeaves(run);
    var moved := RevisionMoves(run, Last(e.queue).value.revision - e.revision);
    r := QueueRuns(moved, d);
    GoesTwice(run, moved, r, false);
  }

  /** A dirty canvas back at the draft last hydrated, while the server holds something else. */
  ghost predicate SkipsWrongly(e: Editor<nat>, d: nat, g: nat) {
    && e.dirty && e.leaving.Staying? && e.selected == e.owner == Some(d) && e.graph == e.hydrated == Some(g)
    && SaveQueue.Sound(e.queue)
  }

  lemma IdleSkips(run: seq<Event>, d: nat, g: nat) returns (r: seq<Event>)
    requires After(run).Some? && SkipsWrongly(After(run).value, d, g) && After(run).value.queue.inflight.None?
    requires !Holds(After(run).value, d, g)
    ensures Goes(run, r, false) && !After(r).value.dirty && !Holds(After(r).value, d, g)
  {
    GoesNowhere(run);
    GoesOn(run, run, Leaves, false);
    GoesOn(run, run + [Leaves], Skips, false);
    r := run + [Leaves] + [Skips];
  }

  /** The last save in the queue lands; then the switch skips. */
  lemma LastLandsThenSkips(run: seq<Event>, d: nat, g: nat) returns (r: seq<Event>)
    requires After(run).Some? && SkipsWrongly(After(run).value, d, g)
    requires
      var q := After(run).value.queue;
      q.inflight.Some? && q.pending.None? && Last(q).value.definition == d && Last(q).value.graph != g
    ensures Goes(run, r, false) && !After(r).value.dirty && !Holds(After(r).value, d, g)
  {
    var done := Succeeds(After(run).value.queue.inflight.value, Version(0, 0, 0));
    GoesNowhere(run);
    GoesOn(run, run, done, false);
    r := run + [done];
    if After(r).value.dirty {
      var r' := IdleSkips(r, d, g);
      GoesTwice(run, r, r', false);
      r := r';
    }
  }

  /** An edit back to the draft last hydrated is lost if the server, or a save on its way, holds another one: the switch
      skips its PATCH. */
  lemma SkippingLoses(run: seq<Event>) returns (r: seq<Event>)
    requires JustEdited(run) && After(run).value.hydrated == Some(GraphOf(run))
    requires
      var e, d, g := After(run).value, DefinitionOf(run), GraphOf(run);
      !(Holds(e, d, g) && QueuedOnly(e.queue, d, g))
    ensures Goes(run, r, false) && !After(r).value.dirty && !Holds(After(r).value, DefinitionOf(run), GraphOf(run))
  {
    var e, d, g := After(run).value, DefinitionOf(run), GraphOf(run);
    EditLeaves(run);
    GoesNowhere(run);
    if e.queue.inflight.None? {
      r := IdleSkips(run, d, g);
    } else {
      var w, v := e.queue.inflight.value, Version(0, 0, 0);
      if !Holds(e, d, g) {
        GoesOn(run, run, Fails(w), false);
        r := IdleSkips(run + [Fails(w)], d, g);
        GoesTwice(run, run + [Fails(w)], r, false);
      } else if e.queue.pending.None? {
        r := LastLandsThenSkips(run, d, g);
      } else {
        var landed := run + [Succeeds(w, v)];
        GoesOn(run, run, Succeeds(w, v), false);
        if Holds(After(landed).value, d, g) {
          r := LastLandsThenSkips(landed, d, g);
          GoesTwice(run, landed, r, false);
        } else {
          GoesOn(run, landed, Fails(w), false);
          r := IdleSkips(landed + [Fails(w)], d, g);
          GoesTwice(run, landed + [Fails(w)], r, false);
        }
      }
    }
  }

  /** Exactly when is a clean editor up to date, even if the definition is left? For every run that ends with an
      accepted edit: when its state is guarded. */
  lemma CleanMeansStoredIff(run: seq<Event>)
    requires JustEdited(run)
    ensures CleanMeansStored(run) <==> Guarded(After(run).value, DefinitionOf(run), GraphOf(run))
  {
    var e, d, g := After(run).value, DefinitionOf(run), GraphOf(run);
    if Guarded(e, d, g) {
      EditIsUnstored(run);
      forall ext | AllTame(ext) && After(run + ext).Some? && !After(run + ext).value.dirty
        ensures Holds(After(run + ext).value, d, g)
      {
        SafeRun(run, d, g, ext);
      }
    } else {
      var r;
      if OtherSleeps(e.timeouts, d, g) {
        r := LeavingOverwrites(run);
      } else if e.hydrated == Some(g) && !(Holds(e, d, g) && QueuedOnly(e.queue, d, g)) {
        r := SkippingLoses(run);
      } else {
        r := StaleSaveTaken(run);
      }
      GoesByExtension(run, r, false);
    }
  }

  // Edits with no edit before the last reset

  lemma OutstandingIsOlder(run: seq<Event>, s: Save<nat>)
    requires JustEdited(run) && Outstanding(After(run[..|run| - 1]).value, s)
    requires forall i :: 0 <= i < EpochStart(run) && i < |run| ==> !run[i].Edit?
    ensures s.revision < After(run).value.revision
  {
    var front := run[..|run| - 1];
    RevisionsAlwaysTrackEdits(front);
    assert Tracks(front, After(front).value, s);
    assert front[s.edit] == run[s.edit];
  }

  lemma OldQueueEndsBehind(run: seq<Event>)
    requires JustEdited(run) && !run[|run| - 1].immediate
    requires forall i :: 0 <= i < EpochStart(run) && i < |run| ==> !run[i].Edit?
    ensures !EndsAhead(After(run).value, DefinitionOf(run))
  {
    EditLeaves(run);
    var q := After(run).value.queue;
    if Last(q).Some? {
      assert q.pending.None? ==> Last(q).value in q.workers.Values;
      OutstandingIsOlder(run, Last(q).value);
    }
  }

  lemma OldSleeperIsBehind(run: seq<Event>, s: Save<nat>)
    requires JustEdited(run) && Delay(s) in After(run).value.timeouts
    requires forall i :: 0 <= i < EpochStart(run) && i < |run| ==> !run[i].Edit?
    ensures s.revision < After(run).value.revision
  {
    var front := run[..|run| - 1];
    CancelledKeepsDelays(After(front).value.timeouts, Delay(s));
    assert Delay(s) in After(front).value.timeouts;
    OutstandingIsOlder(run, s);
  }

  /** Then only sleeping saves and skipped ones matter, and as long as the definition is not left, only immediate edits
      are at risk: browsers fire the delay of the older save before the autosave of the edit. */
  lemma GuardedWithoutReset(run: seq<Event>)
    requires JustEdited(run)
    requires forall i :: 0 <= i < EpochStart(run) && i < |run| ==> !run[i].Edit?
    ensures
      var e, d, g := After(run).value, DefinitionOf(run), GraphOf(run);
      && (GuardedHere(e, d, g) <==> (run[|run| - 1].immediate ==> !OtherSleeps(e.timeouts, d, g)))
      && (Guarded(e, d, g) <==>
            (!OtherSleeps(e.timeouts, d, g) && (e.hydrated == Some(g) ==> Holds(e, d, g) && QueuedOnly(e.queue, d, g))))
  {
    var e, d, g := After(run).value, DefinitionOf(run), GraphOf(run);
    EditLeaves(run);
    if !run[|run| - 1].immediate { OldQueueEndsBehind(run); }
    forall s: Save<nat> | Delay(s) in e.timeouts ensures s.revision != e.revision { OldSleeperIsBehind(run, s); }
  }

  // Three edits that are lost

  /** The save of the first edit is asleep. */
  lemma Sleeper() returns (run: seq<Event>)
    ensures |run| == 4
    ensures
      After(run) == Some(Editor(Some(1), Some(1), 1, Some(10), true, Some(Version(1, 0, 0)),
                                [Delay(Save(1, 1, 10, 2))], SaveQueue.Empty(), map[], [], Staying, Some(0)))
  {
    var v := Version(1, 0, 0);
    run := [];
    Extend(run, Selects(Some(1))); run := run + [Selects(Some(1))];
    Extend(run, Hydrates(1, 0, v)); run := run + [Hydrates(1, 0, v)];
    Extend(run, Edit(10, false)); run := run + [Edit(10, false)];
    assert After(run).value.timeouts == [Autosave(Save(1, 1, 10, 2))];
    Extend(run, Fires(0)); run := run + [Fires(0)];
    assert After(run).value.timeouts == [Delay(Save(1, 1, 10, 2))];
  }

  /** The second edit was immediate and its save is running. */
  lemma SleeperOvertaken() returns (run: seq<Event>)
    ensures |run| == 5
    ensures
      After(run).Some? &&
      var e := After(run).value;
      && e.selected == e.owner == Some(1) && e.revision == 2 && e.graph == Some(20) && e.dirty
      && e.timeouts == [Delay(Save(1, 1, 10, 2))] && e.acked == [] && e.server == map[]
      && e.queue == SaveQueue.Queue(Some(0), None, map[0 := Save(1, 2, 20, 4)], 1, [Save(1, 2, 20, 4)])
  {
    run := Sleeper();
    CancelledLeavesSleeper([Delay(Save(1, 1, 10, 2))]);
    Extend(run, Edit(20, true)); run := run + [Edit(20, true)];
  }

  /** It is saved and acknowledged, then the first one's save overwrites it. */
  lemma StaleDraftWitness() returns (run: seq<Event>)
    ensures After(run).Some?
    ensures
      var e := After(run).value;
      !e.dirty && e.acked == [Save(1, 2, 20, 4)] && e.graph == Some(20) && e.server == map[1 := 10]
  {
    var v := Version(1, 0, 0);
    run := SleeperOvertaken();
    Extend(run, Succeeds(0, v)); run := run + [Succeeds(0, v)];
    Extend(run, Fires(0)); run := run + [Fires(0)];
    Extend(run, Succeeds(1, v)); run := run + [Succeeds(1, v)];
  }

  /** The second edit takes the first one back while that one's save is running. */
  lemma TakenBack() returns (run: seq<Event>)
    ensures |run| == 5
    ensures
      After(run).Some? &&
      var e := After(run).value;
      && e.selected == e.owner == Some(1) && e.revision == 2 && e.graph == e.hydrated == Some(0) && e.dirty
      && e.leaving.Staying? && e.acked == [] && e.server == map[1 := 0]
      && e.queue == SaveQueue.Queue(Some(0), None, map[0 := Save(1, 1, 10, 3)], 1, [Save(1, 1, 10, 3)])
  {
    var v := Version(1, 0, 0);
    run := [];
    Extend(run, Serves(1, 0)); run := run + [Serves(1, 0)];
    Extend(run, Selects(Some(1))); run := run + [Selects(Some(1))];
    Extend(run, Hydrates(1, 0, v)); run := run + [Hydrates(1, 0, v)];
    Extend(run, Edit(10, true)); run := run + [Edit(10, true)];
    Extend(run, Edit(0, false)); run := run + [Edit(0, false)];
  }

  /** That save lands unacknowledged, and the switch skips the second edit's because the canvas is what was loaded: the
      server keeps the edit that was taken back. */
  lemma SkippedSaveWitness() returns (run: seq<Event>)
    ensures After(run).Some?
    ensures var e := After(run).value; !e.dirty && e.acked == [] && e.graph == Some(0) && e.server == map[1 := 10]
  {
    var v := Version(1, 0, 0);
    run := TakenBack();
    Extend(run, Succeeds(0, v)); run := run + [Succeeds(0, v)];
    Extend(run, Leaves); run := run + [Leaves];
    Extend(run, Skips); run := run + [Skips];
  }
}
