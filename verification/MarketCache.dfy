/** The websocket market cache of `ws.rs`: snapshots merged field by field from partial updates, eviction when
    the set of subscribed tokens changes, and the set of dirty tokens through which a consumer hears of updates. */
module MarketCache {
  import opened Common

  datatype Field = BestBid | BestAsk | BestBidSize | BestAskSize | LastTradePrice

  datatype Snapshot = Snapshot(
    bestBid: Option<real>, bestAsk: Option<real>, bestBidSize: Option<real>, bestAskSize: Option<real>,
    lastTradePrice: Option<real>, updatedAtMs: int, lastSource: string)

  /** An extracted update: the fields the payload carried, and when and where it came from. */
  datatype Update = Update(token: string, values: Snapshot)

  type Cache = map<string, Snapshot>

  const DEFAULT := Snapshot(None, None, None, None, None, 0, "")

  function Get(s: Snapshot, f: Field): Option<real> {
    match f
    case BestBid => s.bestBid
    case BestAsk => s.bestAsk
    case BestBidSize => s.bestBidSize
    case BestAskSize => s.bestAskSize
    case LastTradePrice => s.lastTradePrice
  }

  function OrElse(a: Option<real>, b: Option<real>): Option<real> {
    if a.Some? then a else b
  }

  function Merged(s: Snapshot, v: Snapshot): Snapshot {
    Snapshot(OrElse(v.bestBid, s.bestBid), OrElse(v.bestAsk, s.bestAsk), OrElse(v.bestBidSize, s.bestBidSize),
             OrElse(v.bestAskSize, s.bestAskSize), OrElse(v.lastTradePrice, s.lastTradePrice),
             v.updatedAtMs, v.lastSource)
  }

  function Apply(c: Cache, u: Update): Cache {
    c[u.token := Merged(if u.token in c then c[u.token] else DEFAULT, u.values)]
  }

  function ApplyAll(c: Cache, us: seq<Update>): Cache {
    if us == [] then c else Apply(ApplyAll(c, us[..|us| - 1]), us[|us| - 1])
  }

  function Tokens(us: seq<Update>): set<string> {
    set u | u in us :: u.token
  }

  /** The snapshots handed to the tick callback: after each update, the entry it touched. */
  function Ticks(c: Cache, us: seq<Update>): seq<(string, Snapshot)> {
    if us == [] then []
    else
      var token := us[|us| - 1].token;
      Ticks(c, us[..|us| - 1]) + [(token, ApplyAll(c, us)[token])]
  }

  /** The i-th callback sees the fold of the first i updates on top of the prior cache. */
  lemma {:induction false} TickAt(c: Cache, us: seq<Update>, i: nat)
    requires i < |us|
    ensures |Ticks(c, us)| == |us|
    ensures us[i].token in ApplyAll(c, us[..i + 1])
    ensures Ticks(c, us)[i] == (us[i].token, ApplyAll(c, us[..i + 1])[us[i].token])
  {
    var n := |us| - 1;
    if i == n {
      assert us[..i + 1] == us;
      if n > 0 { TickAt(c, us[..n], 0); }
    } else {
      TickAt(c, us[..n], i);
      assert us[..n][..i + 1] == us[..i + 1];
    }
  }

  /** Present fields overwrite, absent fields keep what is cached; time and source always change. */
  method MergeEntry(entry: Snapshot, values: Snapshot) returns (r: Snapshot)
    ensures forall f :: Get(r, f) == if Get(values, f).Some? then Get(values, f) else Get(entry, f)
    ensures r.updatedAtMs == values.updatedAtMs && r.lastSource == values.lastSource
    ensures r == Merged(entry, values)
    ensures r.bestBid == if values.bestBid == None then entry.bestBid else values.bestBid
    ensures r.bestAsk == if values.bestAsk == None then entry.bestAsk else values.bestAsk
    ensures r.lastTradePrice == if values.lastTradePrice == None then entry.lastTradePrice else values.lastTradePrice
  {
    r := entry;
    if values.bestBid.Some? { r := r.(bestBid := values.bestBid); }
    if values.bestAsk.Some? { r := r.(bestAsk := values.bestAsk); }
    if values.bestBidSize.Some? { r := r.(bestBidSize := values.bestBidSize); }
    if values.bestAskSize.Some? { r := r.(bestAskSize := values.bestAskSize); }
    if values.lastTradePrice.Some? { r := r.(lastTradePrice := values.lastTradePrice); }
    r := r.(updatedAtMs := values.updatedAtMs, lastSource := values.lastSource);
  }

  /** Subscribed tokens, and the stream task, by its number: `spawned` counts the tasks started so far. */
  datatype Stream = Stream(cache: Cache, desired: set<string>, task: Option<nat>, spawned: nat)

  /** Does `ensure_market_stream` replace the task? `finished`: the present task has ended by itself. */
  predicate Respawns(s: Stream, tokens: set<string>, finished: bool) {
    tokens != {} && (s.desired != tokens || s.task.None? || finished)
  }

  function Kept(c: Cache, tokens: set<string>): Cache {
    map t | t in c && t in tokens :: c[t]
  }

  /** The present task is aborted, and a new one is started if there are tokens. */
  function Respawned(s: Stream, tokens: set<string>): Stream {
    if tokens == {} then s.(task := None) else s.(task := Some(s.spawned), spawned := s.spawned + 1)
  }

  function Ensured(s: Stream, tokens: set<string>, finished: bool): Stream {
    if tokens == {} || Respawns(s, tokens, finished)
    then Respawned(s.(cache := Kept(s.cache, tokens), desired := tokens), tokens) else s
  }

  const NO_STREAM := Stream(map[], {}, None, 0)

  class MarketStream {
    var cache: Cache
    var desired: set<string>
    var task: Option<nat>
    var spawned: nat
    var dirty: set<string>

    constructor ()
      ensures View() == NO_STREAM && dirty == {}
    {
      cache, desired, task, spawned, dirty := map[], {}, None, 0, {};
    }

    ghost function View(): Stream
      reads this
    {
      Stream(cache, desired, task, spawned)
    }

    /** The locked part of `update_market_cache_from_payload`: what a tick callback is given is the cache as of
        its own update, whatever later updates of the same payload do. */
    method WriteCache(updates: seq<Update>, hasCallback: bool)
        returns (updated: set<string>, ticks: seq<(string, Snapshot)>)
      modifies this`cache
      ensures cache == ApplyAll(old(cache), updates) && updated == Tokens(updates)
      ensures ticks == if hasCallback then Ticks(old(cache), updates) else []
    {
      updated, ticks := {}, [];
      for i := 0 to |updates|
        invariant cache == ApplyAll(old(cache), updates[..i]) && updated == Tokens(updates[..i])
        invariant ticks == if hasCallback then Ticks(old(cache), updates[..i]) else []
      {
        var u := updates[i];
        assert updates[..i + 1] == updates[..i] + [u] && updates[..i + 1][..i] == updates[..i];
        updated := updated + {u.token};
        var entry := MergeEntry(if u.token in cache then cache[u.token] else DEFAULT, u.values);
        cache := cache[u.token := entry];
        if hasCallback { ticks := ticks + [(u.token, entry)]; }
      }
      assert updates[..|updates|] == updates;
    }

    method MarkDirty(tokens: set<string>)
      modifies this`dirty
      ensures dirty == old(dirty) + tokens
    {
      dirty := dirty + tokens;
    }

    method TakeDirtyMarketTokens() returns (tokens: set<string>)
      ensures tokens == dirty
    {
      tokens := dirty;
    }

    method ClearDirtyMarketTokens(tokens: set<string>)
      modifies this`dirty
      ensures dirty == old(dirty) - tokens
    {
      if tokens == {} { return; }
      dirty := dirty - tokens;
    }

    /** The parts of `ensure_market_stream`, each under its own lock. Only one call at a time is between them. */
    method SetDesired(tokens: set<string>, finished: bool) returns (anew: bool)
      modifies this`desired
      ensures anew == (tokens == {} || Respawns(old(View()), tokens, finished))
      ensures desired == if anew then tokens else old(desired)
    {
      anew := tokens == {} || desired != tokens || task.None? || finished;
      if anew { desired := tokens; }
    }

    method Evict(tokens: set<string>)
      modifies this`cache
      ensures cache == Kept(old(cache), tokens)
    {
      cache := Kept(cache, tokens);
    }

    method EmptyDirty()
      modifies this`dirty
      ensures dirty == {}
    {
      dirty := {};
    }

    /** The task is aborted, and a new one is started if there are tokens. */
    method ReplaceTask(tokens: set<string>)
      modifies this`task, this`spawned
      ensures View() == Respawned(old(View()), tokens)
    {
      task := None;
      if tokens != {} {
        task := Some(spawned);
        spawned := spawned + 1;
      }
    }

    method EnsureMarketStream(tokens: set<string>, finished: bool)
      modifies this
      ensures View() == Ensured(old(View()), tokens, finished)
      ensures dirty == if tokens == {} then {} else old(dirty)
      ensures tokens == {} ==> cache == map[] && desired == {} && task == None && spawned == old(spawned)
      ensures tokens != {} ==>
        if old(desired) == tokens && old(task) != None && !finished
        then View() == old(View())
        else && task == Some(old(spawned)) && spawned == old(spawned) + 1 && desired == tokens
             && (forall t :: t in cache <==> t in old(cache) && t in tokens)
             && (forall t :: t in cache ==> cache[t] == old(cache)[t])
    {
      var anew := SetDesired(tokens, finished);
      if !anew { return; }
      Evict(tokens);
      if tokens == {} { EmptyDirty(); }
      ReplaceTask(tokens);
      assert tokens == {} ==> cache == map[];
    }
  }

  // The cache as a function of its history

  datatype Event = Updates(u: Update) | Ensures(tokens: set<string>, finished: bool)

  ghost function After(h: seq<Event>): Stream {
    if h == [] then NO_STREAM
    else
      var s := After(h[..|h| - 1]);
      match h[|h| - 1]
      case Updates(u) => s.(cache := Apply(s.cache, u))
      case Ensures(tokens, finished) => Ensured(s, tokens, finished)
  }

  ghost predicate EvictedAt(h: seq<Event>, j: nat, t: string)
    requires j < |h|
  {
    h[j].Ensures? && t !in h[j].tokens && (h[j].tokens == {} || Respawns(After(h[..j]), h[j].tokens, h[j].finished))
  }

  ghost predicate UpdatedAt(h: seq<Event>, j: nat, t: string)
    requires j < |h|
  {
    h[j].Updates? && h[j].u.token == t
  }

  /** The last update of `t` that carried field `f`, not followed by an eviction of `t`. */
  ghost predicate LastValueAt(h: seq<Event>, i: nat, t: string, f: Field) {
    && i < |h| && UpdatedAt(h, i, t) && Get(h[i].u.values, f).Some?
    && (forall j :: i < j < |h| ==> !EvictedAt(h, j, t) && !(UpdatedAt(h, j, t) && Get(h[j].u.values, f).Some?))
  }

  ghost predicate LastUpdateAt(h: seq<Event>, i: nat, t: string) {
    && i < |h| && UpdatedAt(h, i, t)
    && (forall j :: i < j < |h| ==> !EvictedAt(h, j, t) && !UpdatedAt(h, j, t))
  }

  /** What happened before the last event happened just the same in the shorter history. */
  lemma Shorter(h: seq<Event>, j: nat, t: string)
    requires h != [] && j < |h| - 1
    ensures
      var front := h[..|h| - 1];
      && (EvictedAt(h, j, t) <==> EvictedAt(front, j, t)) && (UpdatedAt(h, j, t) <==> UpdatedAt(front, j, t))
      && h[j] == front[j]
  {
    assert h[..|h| - 1][..j] == h[..j];
  }

  lemma ExtendsLastUpdate(h: seq<Event>, i: nat, t: string)
    requires h != [] && i < |h| - 1
    ensures
      var n := |h| - 1;
      LastUpdateAt(h, i, t) <==> LastUpdateAt(h[..n], i, t) && !EvictedAt(h, n, t) && !UpdatedAt(h, n, t)
  {
    forall j | 0 <= j < |h| - 1 { Shorter(h, j, t); }
  }

  lemma ExtendsLastValue(h: seq<Event>, i: nat, t: string, f: Field)
    requires h != [] && i < |h| - 1
    ensures
      var n := |h| - 1;
      LastValueAt(h, i, t, f) <==>
        LastValueAt(h[..n], i, t, f) && !EvictedAt(h, n, t) && !(UpdatedAt(h, n, t) && Get(h[n].u.values, f).Some?)
  {
    forall j | 0 <= j < |h| - 1 { Shorter(h, j, t); }
  }

  /** A token is cached exactly if it was updated since its last eviction, and its time and source are those of
      the last update. */
  lemma {:induction false} CachedTokens(h: seq<Event>, t: string)
    ensures t in After(h).cache <==> exists i: nat :: LastUpdateAt(h, i, t)
    ensures forall i: nat :: LastUpdateAt(h, i, t) ==>
      && t in After(h).cache
      && After(h).cache[t].updatedAtMs == h[i].u.values.updatedAtMs
      && After(h).cache[t].lastSource == h[i].u.values.lastSource
  {
    if h != [] {
      var n := |h| - 1;
      var front := h[..n];
      CachedTokens(front, t);
      forall i | 0 <= i < n { ExtendsLastUpdate(h, i, t); }
      assert h[..n] == front;
      if UpdatedAt(h, n, t) {
        assert LastUpdateAt(h, n, t);
      } else if t in After(h).cache {
        var i: nat :| LastUpdateAt(front, i, t);
        assert LastUpdateAt(h, i, t);
      }
    }
  }

  /** Each cached field holds the last value that an update carried for the token since its last eviction. */
  lemma {:induction false} CachedFields(h: seq<Event>, t: string, f: Field)
    ensures forall i: nat :: LastValueAt(h, i, t, f) ==>
      t in After(h).cache && Get(After(h).cache[t], f) == Get(h[i].u.values, f)
    ensures t in After(h).cache && Get(After(h).cache[t], f).Some? ==> exists i: nat :: LastValueAt(h, i, t, f)
  {
    if h != [] {
      var n := |h| - 1;
      var front := h[..n];
      CachedFields(front, t, f);
      forall i | 0 <= i < n { ExtendsLastValue(h, i, t, f); }
      assert h[..n] == front;
      if UpdatedAt(h, n, t) && Get(h[n].u.values, f).Some? {
        assert LastValueAt(h, n, t, f);
      } else if t in After(h).cache && Get(After(h).cache[t], f).Some? {
        assert t in After(front).cache && Get(After(front).cache[t], f).Some?;
        var i: nat :| LastValueAt(front, i, t, f);
        assert LastValueAt(h, i, t, f);
      }
    }
  }

  // Writer, consumer and resubscription interleaved at their locks

  /** The consumer has taken `ids` but not cleared them, or cleared them and still has to read them. */
  datatype Reader = Idle | Took(ids: set<string>) | Reading(ids: set<string>)

  /** How far a call of `ensure_market_stream` that changes anything has come. */
  datatype Phase = Ready | Evicting(tokens: set<string>) | Emptying | Replacing(tokens: set<string>)

  /** `marks`: tokens the writer has cached but not yet marked. `seen`: what the consumer last read. */
  datatype System = System(stream: Stream, dirty: set<string>, marks: set<string>, phase: Phase, reader: Reader,
                           seen: Cache)

  datatype Action =
    | Write(us: seq<Update>) | Mark
    | Take | Clear | Read(t: string)
    | Ensure(tokens: set<string>, finished: bool) | Evict | EmptyDirty | ReplaceTask

  const START := System(NO_STREAM, {}, {}, Ready, Idle, map[])

  ghost predicate Enabled(s: System, a: Action) {
    match a
    case Write(_) => s.stream.task.Some? && s.marks == {}
    case Mark => true
    case Take => s.reader == Idle || s.reader == Reading({})
    case Clear => s.reader.Took?
    case Read(t) => s.reader.Reading? && t in s.reader.ids
    case Ensure(_, finished) => s.phase.Ready? && (finished ==> s.marks == {})
    case Evict => s.phase.Evicting?
    case EmptyDirty => s.phase.Emptying?
    case ReplaceTask => s.phase.Replacing?
  }

  ghost function Do(s: System, a: Action): System
    requires Enabled(s, a)
  {
    match a
    case Write(us) => s.(stream := s.stream.(cache := ApplyAll(s.stream.cache, us)), marks := Tokens(us))
    case Mark => s.(dirty := s.dirty + s.marks, marks := {})
    case Take => s.(reader := Took(s.dirty))
    case Clear => s.(dirty := s.dirty - s.reader.ids, reader := Reading(s.reader.ids))
    case Read(t) =>
      var seen := if t in s.stream.cache then s.seen[t := s.stream.cache[t]] else s.seen;
      s.(seen := seen, reader := Reading(s.reader.ids - {t}))
    case Ensure(tokens, finished) =>
      if tokens == {} || Respawns(s.stream, tokens, finished)
      then s.(stream := s.stream.(desired := tokens), phase := Evicting(tokens)) else s
    case Evict =>
      var tokens := s.phase.tokens;
      s.(stream := s.stream.(cache := Kept(s.stream.cache, tokens)),
         phase := if tokens == {} then Emptying else Replacing(tokens))
    case EmptyDirty => s.(dirty := {}, phase := Replacing({}))
    case ReplaceTask => s.(stream := Respawned(s.stream, s.phase.tokens), marks := {}, phase := Ready)
  }

  /** No call of `ensure_market_stream` comes between the parts of another. */
  lemma CallsTakeTurns(s: System, a: Action)
    requires Enabled(s, a)
    ensures
      var next := Do(s, a).phase;
      || next == s.phase
      || match s.phase
         case Ready => next.Evicting?
         case Evicting(tokens) => next == if tokens == {} then Emptying else Replacing(tokens)
         case Emptying => next == Replacing({})
         case Replacing(_) => next == Ready
  {
  }

  /** The states of a run, from an empty client. */
  ghost predicate Runs(states: seq<System>, actions: seq<Action>) {
    && |states| == |actions| + 1 && states[0] == START
    && (forall i :: 0 <= i < |actions| ==> Enabled(states[i], actions[i]) && states[i + 1] == Do(states[i], actions[i]))
  }

  /** Something started before step `n` and nothing stopped it since. */
  ghost predicate Since(starts: nat -> bool, stops: nat -> bool, n: nat) {
    exists i :: 0 <= i < n && starts(i) && forall j :: i < j < n ==> !stops(j)
  }

  lemma SinceStep(starts: nat -> bool, stops: nat -> bool, n: nat)
    ensures Since(starts, stops, n + 1) <==> starts(n) || (Since(starts, stops, n) && !stops(n))
  {
    if starts(n) {
      assert 0 <= n < n + 1 && starts(n);
    } else if Since(starts, stops, n) && !stops(n) {
      var i :| 0 <= i < n && starts(i) && forall j :: i < j < n ==> !stops(j);
      assert forall j :: i < j < n + 1 ==> !stops(j);
    }
  }

  // Which steps do what

  ghost function Writes(actions: seq<Action>, t: string): nat -> bool {
    (i: nat) => i < |actions| && actions[i].Write? && t in Tokens(actions[i].us)
  }

  /** The writer marked what it had written, or was stopped. */
  ghost function Unwrites(actions: seq<Action>): nat -> bool {
    (i: nat) => i < |actions| && (actions[i].Mark? || actions[i].ReplaceTask?)
  }

  /** A mark of what a write had cached before, with neither a mark nor an abort in between. */
  ghost function MarksWritten(actions: seq<Action>, t: string): nat -> bool {
    (i: nat) => i < |actions| && actions[i].Mark? && Since(Writes(actions, t), Unwrites(actions), i)
  }

  /** The dirty set was emptied, or cleared of what the consumer had taken. */
  ghost function Cleans(states: seq<System>, actions: seq<Action>, t: string): nat -> bool
    requires Runs(states, actions)
  {
    (i: nat) => i < |actions| && (actions[i].EmptyDirty? || (actions[i].Clear? && t in states[i].reader.ids))
  }

  lemma {:induction false} MarksExactly(states: seq<System>, actions: seq<Action>, n: nat, t: string)
    requires Runs(states, actions) && n < |states|
    ensures t in states[n].marks <==> Since(Writes(actions, t), Unwrites(actions), n)
  {
    if n > 0 {
      MarksExactly(states, actions, n - 1, t);
      SinceStep(Writes(actions, t), Unwrites(actions), n - 1);
      assert states[n] == Do(states[n - 1], actions[n - 1]);
    }
  }

  /** In every interleaving a token is dirty exactly if a write of it was marked, and the dirty set was neither
      emptied since nor cleared of it. */
  lemma {:induction false} DirtyExactly(states: seq<System>, actions: seq<Action>, n: nat, t: string)
    requires Runs(states, actions) && n < |states|
    ensures t in states[n].dirty <==> Since(MarksWritten(actions, t), Cleans(states, actions, t), n)
  {
    if n > 0 {
      DirtyExactly(states, actions, n - 1, t);
      MarksExactly(states, actions, n - 1, t);
      SinceStep(MarksWritten(actions, t), Cleans(states, actions, t), n - 1);
      assert states[n] == Do(states[n - 1], actions[n - 1]);
    }
  }

  // Are updates lost?

  /** Some pending step will make the consumer read `t`. */
  ghost predicate Announced(s: System, t: string) {
    t in s.dirty || t in s.marks || (!s.reader.Idle? && t in s.reader.ids)
  }

  ghost predicate HasRead(s: System, t: string) {
    t in s.stream.cache && t in s.seen && s.seen[t] == s.stream.cache[t]
  }

  /** The cache holds news of `t` that the consumer has not read and no pending step will make it read. */
  ghost predicate Missed(s: System, t: string) {
    t in s.stream.cache && !Announced(s, t) && !HasRead(s, t)
  }

  /** The step takes away the only announcement of unread news: the writer is stopped before its mark, or the dirty
      set is emptied after the token was cached anew. */
  ghost predicate Loses(s: System, a: Action, t: string) {
    && t in s.stream.cache && !HasRead(s, t) && (s.reader.Idle? || t !in s.reader.ids)
    && if a.ReplaceTask? then t in s.marks && t !in s.dirty else a.EmptyDirty? && t in s.dirty && t !in s.marks
  }

  /** The token is written or evicted. */
  ghost predicate Renews(s: System, a: Action, t: string) {
    (a.Write? && t in Tokens(a.us)) || (a.Evict? && s.phase.Evicting? && t !in s.phase.tokens)
  }

  lemma {:induction false} ApplyAllFrame(c: Cache, us: seq<Update>, t: string)
    ensures t !in Tokens(us) ==> (t in ApplyAll(c, us) <==> t in c) && (t in c ==> ApplyAll(c, us)[t] == c[t])
  {
    if us != [] {
      ApplyAllFrame(c, us[..|us| - 1], t);
      assert us == us[..|us| - 1] + [us[|us| - 1]];
    }
  }

  /** What one step does to what the consumer misses, exactly. */
  lemma StepMisses(s: System, a: Action, t: string)
    requires Enabled(s, a)
    ensures Missed(Do(s, a), t) <==> Loses(s, a, t) || (Missed(s, t) && !Renews(s, a, t))
  {
    if a.Write? { ApplyAllFrame(s.stream.cache, a.us, t); }
  }

  ghost function LosesAt(states: seq<System>, actions: seq<Action>, t: string): nat -> bool
    requires Runs(states, actions)
  {
    (i: nat) => i < |actions| && Loses(states[i], actions[i], t)
  }

  ghost function RenewsAt(states: seq<System>, actions: seq<Action>, t: string): nat -> bool
    requires Runs(states, actions)
  {
    (i: nat) => i < |actions| && Renews(states[i], actions[i], t)
  }

  /** Exactly when does the consumer miss news? However writes, marks, takes, clears, reads and resubscriptions
      interleave: when a step lost the announcement of the token and it was neither written nor evicted since. */
  lemma {:induction false} MissedIff(states: seq<System>, actions: seq<Action>, n: nat, t: string)
    requires Runs(states, actions) && n < |states|
    ensures Missed(states[n], t) <==> Since(LosesAt(states, actions, t), RenewsAt(states, actions, t), n)
  {
    if n > 0 {
      MissedIff(states, actions, n - 1, t);
      SinceStep(LosesAt(states, actions, t), RenewsAt(states, actions, t), n - 1);
      StepMisses(states[n - 1], actions[n - 1], t);
      assert states[n] == Do(states[n - 1], actions[n - 1]);
    }
  }

  ghost predicate UpToDate(s: System) {
    forall t :: !Missed(s, t)
  }

  /** A run keeps the consumer up to date all along exactly if no step of it loses an announcement. An abort in mid
      update is harmless if the token was evicted, is dirty or in the consumer's hands anyway, or was read since. */
  lemma NoLostUpdateIff(states: seq<System>, actions: seq<Action>)
    requires Runs(states, actions)
    ensures (forall n :: 0 <= n < |states| ==> UpToDate(states[n]))
       <==> (forall i, t :: 0 <= i < |actions| ==> !Loses(states[i], actions[i], t))
  {
    if forall n :: 0 <= n < |states| ==> UpToDate(states[n]) {
      forall i, t | 0 <= i < |actions| ensures !Loses(states[i], actions[i], t) {
        StepMisses(states[i], actions[i], t);
        assert UpToDate(states[i + 1]) && states[i + 1] == Do(states[i], actions[i]);
      }
    } else {
      var n :| 0 <= n < |states| && !UpToDate(states[n]);
      var t :| Missed(states[n], t);
      MissedIff(states, actions, n, t);
    }
  }

  lemma Extend(states: seq<System>, actions: seq<Action>, a: Action) returns (more: seq<System>)
    requires Runs(states, actions) && Enabled(states[|actions|], a)
    ensures more == states + [Do(states[|actions|], a)] && Runs(more, actions + [a])
  {
    more := states + [Do(states[|actions|], a)];
  }

  lemma Subscribed(tokens: set<string>) returns (states: seq<System>, actions: seq<Action>)
    requires tokens != {}
    ensures Runs(states, actions) && |actions| == 3
    ensures states[3] == START.(stream := Stream(map[], tokens, Some(0), 1))
  {
    states, actions := [START], [];
    states := Extend(states, actions, Ensure(tokens, false)); actions := actions + [Ensure(tokens, false)];
    states := Extend(states, actions, Evict); actions := actions + [Evict];
    states := Extend(states, actions, ReplaceTask); actions := actions + [ReplaceTask];
  }

  lemma WriteOne(c: Cache, u: Update)
    ensures ApplyAll(c, [u]) == Apply(c, u) && Tokens([u]) == {u.token}
  {
    assert [u][..0] == [];
  }

  /** Undisturbed, an update reaches the consumer, who then has nothing left to take; a task that has finished by then
      is replaced by the next subscription to the same token. */
  lemma UpdateReachesConsumer() returns (states: seq<System>, actions: seq<Action>)
    ensures Runs(states, actions)
    ensures
      var s := states[|states| - 1];
      "a" in s.stream.cache && HasRead(s, "a") && s.reader == Took({}) && s.stream.task == Some(1)
  {
    var u := Update("a", DEFAULT);
    WriteOne(map[], u);
    states, actions := Subscribed({"a"});
    states := Extend(states, actions, Write([u])); actions := actions + [Write([u])];
    states := Extend(states, actions, Mark); actions := actions + [Mark];
    states := Extend(states, actions, Take); actions := actions + [Take];
    states := Extend(states, actions, Clear); actions := actions + [Clear];
    states := Extend(states, actions, Read("a")); actions := actions + [Read("a")];
    states := Extend(states, actions, Take); actions := actions + [Take];
    states := Extend(states, actions, Ensure({"a"}, true)); actions := actions + [Ensure({"a"}, true)];
    states := Extend(states, actions, Evict); actions := actions + [Evict];
    states := Extend(states, actions, ReplaceTask); actions := actions + [ReplaceTask];
  }

  /** Stopping the writer in mid update does lose one: a resubscription comes between its write and its mark. */
  lemma AbortLosesUpdate() returns (states: seq<System>, actions: seq<Action>)
    ensures Runs(states, actions) && Missed(states[|states| - 1], "a")
  {
    var u := Update("a", DEFAULT);
    WriteOne(map[], u);
    states, actions := Subscribed({"a"});
    states := Extend(states, actions, Write([u])); actions := actions + [Write([u])];
    assert "b" in {"a", "b"};
    states := Extend(states, actions, Ensure({"a", "b"}, false)); actions := actions + [Ensure({"a", "b"}, false)];
    states := Extend(states, actions, Evict); actions := actions + [Evict];
    states := Extend(states, actions, ReplaceTask); actions := actions + [ReplaceTask];
  }

  /** So does emptying, whose locks are taken one by one: a token written and marked after the cache was cleared and
      before the dirty set is stays cached, unread and unannounced. */
  lemma EmptyingLosesUpdate() returns (states: seq<System>, actions: seq<Action>)
    ensures Runs(states, actions) && Missed(states[|states| - 1], "a")
  {
    var u := Update("a", DEFAULT);
    WriteOne(map[], u);
    states, actions := Subscribed({"a"});
    states := Extend(states, actions, Ensure({}, false)); actions := actions + [Ensure({}, false)];
    states := Extend(states, actions, Evict); actions := actions + [Evict];
    assert Kept(map[], {}) == map[];
    states := Extend(states, actions, Write([u])); actions := actions + [Write([u])];
    states := Extend(states, actions, Mark); actions := actions + [Mark];
    states := Extend(states, actions, EmptyDirty); actions := actions + [EmptyDirty];
  }
}
