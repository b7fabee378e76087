/**
 The tag index at the grain of the single Redis call: any number of writes, deletions and purges of
 one site under way at once, their calls interleaved in any order.  Sites whose ids do not extend one
 another share no keys, so one site stands for all.
 */
module TagRuns {
  type Key = string
  type Tag = string

  /**
   An operation with what it still has to do: the tags to add or to remove, or the entries a purge
   read and has not deleted.  `since` is history: the keys added to the purged tag since that read.
   */
  datatype Op =
    | Putting(key: Key, tags: seq<Tag>)
    | Deleting(key: Key, tags: seq<Tag>)
    | Purging(tag: Tag, keys: set<Key>, since: set<Key>)
    | Done

  /**
   `lost` is history as well: a key and tag are in it if a purge of the tag dropped the tag's set
   though the key had last been added after the purge read it.
   */
  datatype State = State(metas: map<Key, seq<Tag>>, sets: map<Tag, set<Key>>, ops: seq<Op>, lost: set<(Key, Tag)>)

  datatype Action =
    | SetMeta(key: Key, tags: seq<Tag>)
    | Add(op: nat)
    | Get(key: Key)
    | Remove(op: nat)
    | DropMeta(op: nat)
    | Read(tag: Tag)
    | PurgeMeta(op: nat, key: Key)
    | DropSet(op: nat)
    | DropKey(key: Key)

  function Initial(): State { State(map[], map[], [], {}) }

  function Members(s: State, tag: Tag): set<Key> {
    if tag in s.sets then s.sets[tag] else {}
  }

  /** A key added to a tag's set is noted by the purges of that tag under way. */
  function Note(op: Op, key: Key, tag: Tag): Op {
    if op.Purging? && op.tag == tag then op.(since := op.since + {key}) else op
  }

  function NoteAll(ops: seq<Op>, key: Key, tag: Tag): (r: seq<Op>)
    ensures |r| == |ops|
  {
    seq(|ops|, i requires 0 <= i < |ops| => Note(ops[i], key, tag))
  }

  function PutOp(key: Key, tags: seq<Tag>): Op {
    if tags == [] then Done else Putting(key, tags)
  }

  /** One Redis call; one that is not the turn of its operation changes nothing. */
  function Next(s: State, a: Action): State {
    match a
    case SetMeta(key, tags) => s.(metas := s.metas[key := tags], ops := s.ops + [PutOp(key, tags)])
    case Add(i) =>
      if i < |s.ops| && s.ops[i].Putting? && s.ops[i].tags != [] then
        var key, tag := s.ops[i].key, s.ops[i].tags[0];
        s.(sets := s.sets[tag := Members(s, tag) + {key}], lost := s.lost - {(key, tag)},
           ops := NoteAll(s.ops, key, tag)[i := PutOp(key, s.ops[i].tags[1..])])
      else s
    case Get(key) => s.(ops := s.ops + [Deleting(key, if key in s.metas then s.metas[key] else [])])
    case Remove(i) =>
      if i < |s.ops| && s.ops[i].Deleting? && s.ops[i].tags != [] then
        var key, tag := s.ops[i].key, s.ops[i].tags[0];
        s.(sets := s.sets[tag := Members(s, tag) - {key}], ops := s.ops[i := Deleting(key, s.ops[i].tags[1..])])
      else s
    case DropMeta(i) =>
      if i < |s.ops| && s.ops[i].Deleting? && s.ops[i].tags == []
      then s.(metas := s.metas - {s.ops[i].key}, ops := s.ops[i := Done]) else s
    case Read(tag) =>
      s.(ops := s.ops + [if Members(s, tag) == {} then Done else Purging(tag, Members(s, tag), {})])
    case PurgeMeta(i, key) =>
      if i < |s.ops| && s.ops[i].Purging? && key in s.ops[i].keys
      then s.(metas := s.metas - {key}, ops := s.ops[i := s.ops[i].(keys := s.ops[i].keys - {key})]) else s
    case DropSet(i) =>
      if i < |s.ops| && s.ops[i].Purging? && s.ops[i].keys == {} then
        var tag, since := s.ops[i].tag, s.ops[i].since;
        s.(sets := s.sets - {tag}, ops := s.ops[i := Done],
           lost := s.lost + set k | k in since :: (k, tag))
      else s
    case DropKey(key) => s.(metas := s.metas - {key})
  }

  function Run(actions: seq<Action>): State {
    if actions == [] then Initial() else Next(Run(actions[..|actions| - 1]), actions[|actions| - 1])
  }

  // ------------------------------------------------------------------------------------------
  // What every interleaving keeps.

  ghost predicate Stored(s: State, key: Key, tag: Tag) {
    key in s.metas && tag in s.metas[key]
  }

  /** This operation will add the key to the tag's set, or delete the entry. */
  predicate Settles(op: Op, key: Key, tag: Tag) {
    match op
    case Putting(k, tags) => k == key && tag in tags
    case Deleting(k, _) => k == key
    case Purging(_, keys, _) => key in keys
    case Done => false
  }

  ghost predicate Pending(s: State, key: Key, tag: Tag) {
    exists i | 0 <= i < |s.ops| :: Settles(s.ops[i], key, tag)
  }

  ghost predicate Accounted(s: State, key: Key, tag: Tag) {
    Stored(s, key, tag) ==> key in Members(s, tag) || Pending(s, key, tag) || (key, tag) in s.lost
  }

  /** What a purge will drop from the set without having deleted it was added since its read. */
  ghost predicate PurgeSees(s: State, i: nat, key: Key)
    requires i < |s.ops|
  {
    var op := s.ops[i];
    op.Purging? && Stored(s, key, op.tag) && key in Members(s, op.tag) ==>
      key in op.keys || key in op.since || Pending(s, key, op.tag)
  }

  ghost predicate Inv(s: State) {
    && (forall key, tag :: Accounted(s, key, tag))
    && (forall i: nat, key | i < |s.ops| :: PurgeSees(s, i, key))
    && (forall key, tag | (key, tag) in s.lost :: key !in Members(s, tag))
  }

  /** A step that settles nothing for this key and tag leaves what was pending. */
  lemma {:induction false} StillPending(s: State, t: State, key: Key, tag: Tag, i: nat)
    requires |s.ops| <= |t.ops|
    requires forall j | 0 <= j < |s.ops| && j != i :: Settles(s.ops[j], key, tag) ==> Settles(t.ops[j], key, tag)
    requires i < |s.ops| && Settles(s.ops[i], key, tag) ==> Settles(t.ops[i], key, tag)
    ensures Pending(s, key, tag) ==> Pending(t, key, tag)
  {
    if j :| 0 <= j < |s.ops| && Settles(s.ops[j], key, tag) { assert Settles(t.ops[j], key, tag); }
  }

  lemma {:induction false} SetMetaKeeps(s: State, k: Key, tags: seq<Tag>)
    requires Inv(s)
    ensures Inv(Next(s, SetMeta(k, tags)))
  {
    var t := Next(s, SetMeta(k, tags));
    forall key, tag ensures Accounted(t, key, tag) && (Stored(t, key, tag) && key == k ==> Pending(t, key, tag)) {
      assert Accounted(s, key, tag);
      StillPending(s, t, key, tag, |s.ops|);
      if key == k && tag in tags { assert Settles(t.ops[|s.ops|], key, tag); }
    }
    forall i: nat, key | i < |t.ops| ensures PurgeSees(t, i, key) {
      if i < |s.ops| && s.ops[i].Purging? {
        assert PurgeSees(s, i, key);
        StillPending(s, t, key, s.ops[i].tag, |s.ops|);
      }
    }
  }

  lemma {:induction false} AppendKeeps(s: State, op: Op)
    requires Inv(s) && (op.Purging? ==> op.keys == Members(s, op.tag))
    ensures Inv(s.(ops := s.ops + [op]))
  {
    var t := s.(ops := s.ops + [op]);
    forall key, tag ensures Accounted(t, key, tag) {
      assert Accounted(s, key, tag);
      StillPending(s, t, key, tag, |s.ops|);
    }
    forall i: nat, key | i < |t.ops| ensures PurgeSees(t, i, key) {
      if i < |s.ops| && s.ops[i].Purging? {
        assert PurgeSees(s, i, key);
        StillPending(s, t, key, s.ops[i].tag, |s.ops|);
      }
    }
  }

  lemma {:induction false} AddKeeps(s: State, i: nat)
    requires Inv(s) && i < |s.ops| && s.ops[i].Putting? && s.ops[i].tags != []
    ensures Inv(Next(s, Add(i)))
  {
    var t := Next(s, Add(i));
    var k, added := s.ops[i].key, s.ops[i].tags[0];
    forall key, tag
      ensures Accounted(t, key, tag)
      ensures Pending(s, key, tag) ==> Pending(t, key, tag) || (key == k && tag == added)
    {
      assert Accounted(s, key, tag);
      if !(key == k && tag == added) {
        assert tag in s.ops[i].tags ==> tag in s.ops[i].tags[1..] || tag == added;
        StillPending(s, t, key, tag, i);
      }
    }
    forall j: nat, key | j < |t.ops| ensures PurgeSees(t, j, key) {
      if s.ops[j].Purging? { assert PurgeSees(s, j, key); }
    }
  }

  lemma {:induction false} RemoveKeeps(s: State, i: nat)
    requires Inv(s) && i < |s.ops| && s.ops[i].Deleting? && s.ops[i].tags != []
    ensures Inv(Next(s, Remove(i)))
  {
    var t := Next(s, Remove(i));
    var k, removed := s.ops[i].key, s.ops[i].tags[0];
    forall key, tag ensures Accounted(t, key, tag) && (Pending(s, key, tag) ==> Pending(t, key, tag)) {
      assert Accounted(s, key, tag);
      StillPending(s, t, key, tag, i);
      if key == k { assert Settles(t.ops[i], key, tag); }
    }
    forall j: nat, key | j < |t.ops| ensures PurgeSees(t, j, key) {
      if s.ops[j].Purging? { assert PurgeSees(s, j, key); }
    }
  }

  /** An entry is deleted, by an operation of which nothing is due for any other key. */
  lemma {:induction false} DropKeeps(s: State, t: State, i: nat, k: Key)
    requires Inv(s) && t.metas == s.metas - {k} && t.sets == s.sets && t.lost == s.lost && |t.ops| == |s.ops|
    requires forall j | 0 <= j < |s.ops| && j != i :: t.ops[j] == s.ops[j]
    requires i < |s.ops| ==>
      && (forall key, tag | key != k && Settles(s.ops[i], key, tag) :: Settles(t.ops[i], key, tag))
      && (t.ops[i].Purging? ==> s.ops[i].Purging? && t.ops[i] == s.ops[i].(keys := s.ops[i].keys - {k}))
    ensures Inv(t)
  {
    forall key, tag ensures Accounted(t, key, tag) && (key != k && Pending(s, key, tag) ==> Pending(t, key, tag)) {
      assert Accounted(s, key, tag);
      if key != k { StillPending(s, t, key, tag, i); }
    }
    forall j: nat, key | j < |t.ops| ensures PurgeSees(t, j, key) {
      if t.ops[j].Purging? { assert PurgeSees(s, j, key); }
    }
  }

  lemma {:induction false} DropSetKeeps(s: State, i: nat)
    requires Inv(s) && i < |s.ops| && s.ops[i].Purging? && s.ops[i].keys == {}
    ensures Inv(Next(s, DropSet(i)))
  {
    var t := Next(s, DropSet(i));
    var dropped := s.ops[i].tag;
    forall key, tag ensures Accounted(t, key, tag) && (Pending(s, key, tag) ==> Pending(t, key, tag)) {
      assert Accounted(s, key, tag) && PurgeSees(s, i, key);
      StillPending(s, t, key, tag, i);
    }
    forall j: nat, key | j < |t.ops| ensures PurgeSees(t, j, key) {
      if t.ops[j].Purging? { assert PurgeSees(s, j, key); }
    }
  }

  lemma {:induction false} StepKeeps(s: State, a: Action)
    requires Inv(s)
    ensures Inv(Next(s, a))
  {
    hide Inv;
    match a
    case SetMeta(key, tags) => SetMetaKeeps(s, key, tags);
    case Add(i) => if i < |s.ops| && s.ops[i].Putting? && s.ops[i].tags != [] { AddKeeps(s, i); }
    case Get(key) => AppendKeeps(s, Deleting(key, if key in s.metas then s.metas[key] else []));
    case Remove(i) => if i < |s.ops| && s.ops[i].Deleting? && s.ops[i].tags != [] { RemoveKeeps(s, i); }
    case DropMeta(i) =>
      if i < |s.ops| && s.ops[i].Deleting? && s.ops[i].tags == [] { DropKeeps(s, Next(s, a), i, s.ops[i].key); }
    case Read(tag) => AppendKeeps(s, if Members(s, tag) == {} then Done else Purging(tag, Members(s, tag), {}));
    case PurgeMeta(i, key) =>
      if i < |s.ops| && s.ops[i].Purging? && key in s.ops[i].keys { DropKeeps(s, Next(s, a), i, key); }
    case DropSet(i) => if i < |s.ops| && s.ops[i].Purging? && s.ops[i].keys == {} { DropSetKeeps(s, i); }
    case DropKey(key) => DropKeeps(s, Next(s, a), |s.ops|, key);
  }

  lemma {:induction false} EveryRun(actions: seq<Action>)
    ensures Inv(Run(actions))
  {
    hide Next, Inv;
    if actions == [] {
      NothingStored();
    } else {
      EveryRun(actions[..|actions| - 1]);
      StepKeeps(Run(actions[..|actions| - 1]), actions[|actions| - 1]);
    }
  }

  lemma {:induction false} NothingStored()
    ensures Inv(Initial())
  {
  }

  ghost predicate Quiet(s: State) {
    forall i | 0 <= i < |s.ops| :: s.ops[i] == Done
  }

  /**
   After any interleaving, when nothing is under way: a stored entry is missing from the set of one
   of its tags if and only if the set was dropped by a purge that had read it before the entry was
   last added.
   */
  lemma {:induction false} UnindexedIffLost(actions: seq<Action>, key: Key, tag: Tag)
    requires Quiet(Run(actions)) && Stored(Run(actions), key, tag)
    ensures key !in Members(Run(actions), tag) <==> (key, tag) in Run(actions).lost
  {
    hide Run;
    EveryRun(actions);
    assert Accounted(Run(actions), key, tag);
  }

  // ------------------------------------------------------------------------------------------
  // Runs in which nothing is lost, and one in which something is.

  /** A purge of the tag has read its set and not dropped it yet. */
  ghost predicate UnderPurge(s: State, tag: Tag) {
    exists i | 0 <= i < |s.ops| :: s.ops[i].Purging? && s.ops[i].tag == tag
  }

  /** No key is added to a tag's set while the tag is being purged. */
  ghost predicate Apart(actions: seq<Action>) {
    actions != [] ==>
      var front, a := actions[..|actions| - 1], actions[|actions| - 1];
      var s := Run(front);
      && Apart(front)
      && (a.Add? && a.op < |s.ops| && s.ops[a.op].Putting? && s.ops[a.op].tags != [] ==>
            !UnderPurge(s, s.ops[a.op].tags[0]))
  }

  ghost predicate NoneSince(s: State) {
    s.lost == {} && forall i | 0 <= i < |s.ops| :: s.ops[i].Purging? ==> s.ops[i].since == {}
  }

  lemma {:induction false} ApartLosesNothing(actions: seq<Action>)
    requires Apart(actions)
    ensures NoneSince(Run(actions))
  {
    if actions != [] {
      var front, a := actions[..|actions| - 1], actions[|actions| - 1];
      ApartLosesNothing(front);
      var s := Run(front);
      if a.Add? && a.op < |s.ops| && s.ops[a.op].Putting? && s.ops[a.op].tags != [] {
        forall i | 0 <= i < |s.ops| ensures Note(s.ops[i], s.ops[a.op].key, s.ops[a.op].tags[0]) == s.ops[i] {}
      }
    }
  }

  /** So without such overlaps every stored entry is in the set of each of its tags. */
  lemma {:induction false} ApartIsIndexed(actions: seq<Action>, key: Key, tag: Tag)
    requires Apart(actions) && Quiet(Run(actions)) && Stored(Run(actions), key, tag)
    ensures key in Members(Run(actions), tag)
  {
    hide Run, Apart;
    ApartLosesNothing(actions);
    UnindexedIffLost(actions, key, tag);
  }

  /** A purge that finds one entry, and a second one written between its read and its drop. */
  function PutInsidePurge(a: Key, b: Key, tag: Tag): seq<Action> {
    [SetMeta(a, [tag]), Add(0), Read(tag), SetMeta(b, [tag]), Add(2), PurgeMeta(1, a), DropSet(1)]
  }

  lemma {:induction false} RunMore(actions: seq<Action>, a: Action)
    ensures Run(actions + [a]) == Next(Run(actions), a)
  {
    hide Next;
    assert (actions + [a])[..|actions|] == actions;
  }

  lemma {:induction false} PutInsidePurgeIsLost(a: Key, b: Key, tag: Tag)
    requires a != b
    ensures var s := Run(PutInsidePurge(a, b, tag));
      Quiet(s) && Stored(s, b, tag) && b !in Members(s, tag) && !Stored(s, a, tag)
  {
    hide Run, Next;
    var x := [SetMeta(a, [tag]), Add(0), Read(tag)];
    var y := x + [SetMeta(b, [tag]), Add(2)];
    FirstPut(a, tag);
    SecondPut(a, b, tag);
    RunMore(y, PurgeMeta(1, a));
    RunMore(y + [PurgeMeta(1, a)], DropSet(1));
    assert PutInsidePurge(a, b, tag) == y + [PurgeMeta(1, a)] + [DropSet(1)];
    PurgeEnds(a, b, tag);
  }

  lemma {:induction false} FirstPut(a: Key, tag: Tag)
    ensures Run([SetMeta(a, [tag]), Add(0), Read(tag)])
         == State(map[a := [tag]], map[tag := {a}], [Done, Purging(tag, {a}, {})], {})
  {
    hide Run;
    NothingRun();
    RunMore([], SetMeta(a, [tag]));
    RunMore([SetMeta(a, [tag])], Add(0));
    RunMore([SetMeta(a, [tag]), Add(0)], Read(tag));
    assert [] + [SetMeta(a, [tag])] == [SetMeta(a, [tag])];
    assert [tag][1..] == [] && [SetMeta(a, [tag])] + [Add(0)] == [SetMeta(a, [tag]), Add(0)];
    assert [SetMeta(a, [tag]), Add(0)] + [Read(tag)] == [SetMeta(a, [tag]), Add(0), Read(tag)];
    assert Run([SetMeta(a, [tag])]) == State(map[a := [tag]], map[], [Putting(a, [tag])], {});
    AddFirst(a, tag);
    var t := Next(State(map[a := [tag]], map[tag := {a}], [Done], {}), Read(tag));
    assert t.ops == [Done, Purging(tag, {a}, {})];
  }

  lemma {:induction false} AddFirst(a: Key, tag: Tag)
    ensures Next(State(map[a := [tag]], map[], [Putting(a, [tag])], {}), Add(0))
         == State(map[a := [tag]], map[tag := {a}], [Done], {})
  {
    var t := Next(State(map[a := [tag]], map[], [Putting(a, [tag])], {}), Add(0));
    assert [tag][1..] == [] && {} + {a} == {a};
    assert t.ops == [Done] && t.lost == {} && t.sets == map[tag := {a}];
  }

  lemma {:induction false} AddSecond(a: Key, b: Key, tag: Tag)
    requires a != b
    ensures var s := State(map[a := [tag], b := [tag]], map[tag := {a}],
                           [Done, Purging(tag, {a}, {}), Putting(b, [tag])], {});
      Next(s, Add(2))
      == State(map[a := [tag], b := [tag]], map[tag := {a, b}], [Done, Purging(tag, {a}, {b}), Done], {})
  {
    var s := State(map[a := [tag], b := [tag]], map[tag := {a}], [Done, Purging(tag, {a}, {}), Putting(b, [tag])], {});
    var t := Next(s, Add(2));
    assert [tag][1..] == [] && {a} + {b} == {a, b} && {} + {b} == {b};
    assert t.ops == [Done, Purging(tag, {a}, {b}), Done] && t.lost == {} && t.sets == map[tag := {a, b}];
  }

  lemma {:induction false} SecondPut(a: Key, b: Key, tag: Tag)
    requires a != b
    ensures Run([SetMeta(a, [tag]), Add(0), Read(tag)] + [SetMeta(b, [tag]), Add(2)])
         == State(map[a := [tag], b := [tag]], map[tag := {a, b}], [Done, Purging(tag, {a}, {b}), Done], {})
  {
    hide Run;
    var x := [SetMeta(a, [tag]), Add(0), Read(tag)];
    FirstPut(a, tag);
    RunMore(x, SetMeta(b, [tag]));
    RunMore(x + [SetMeta(b, [tag])], Add(2));
    assert x + [SetMeta(b, [tag])] + [Add(2)] == x + [SetMeta(b, [tag]), Add(2)] && [tag][1..] == [];
    assert Run(x + [SetMeta(b, [tag])])
        == State(map[a := [tag], b := [tag]], map[tag := {a}], [Done, Purging(tag, {a}, {}), Putting(b, [tag])], {});
    AddSecond(a, b, tag);
  }

  lemma {:induction false} PurgeEnds(a: Key, b: Key, tag: Tag)
    requires a != b
    ensures var s := State(map[a := [tag], b := [tag]], map[tag := {a, b}], [Done, Purging(tag, {a}, {b}), Done], {});
      var t := Next(Next(s, PurgeMeta(1, a)), DropSet(1));
      Quiet(t) && Stored(t, b, tag) && b !in Members(t, tag) && !Stored(t, a, tag)
  {
  }

  lemma {:induction false} NothingRun()
    ensures Run([]) == Initial()
  {
  }

  // ------------------------------------------------------------------------------------------
  // What a deletion leaves behind.

  /** The step adds this key to this tag's set. */
  ghost predicate Adds(s: State, a: Action, key: Key, tag: Tag) {
    && a.Add? && a.op < |s.ops| && s.ops[a.op].Putting? && s.ops[a.op].key == key
    && s.ops[a.op].tags != [] && s.ops[a.op].tags[0] == tag
  }

  /** The deletion has still to take the key out of the tag's set, or it is out. */
  ghost predicate TakesOut(s: State, i: nat, key: Key, tag: Tag) {
    && i < |s.ops|
    && match s.ops[i]
       case Deleting(k, tags) => k == key && (tag in tags || key !in Members(s, tag))
       case Done => key !in Members(s, tag)
       case _ => false
  }

  lemma {:induction false} StepTakesOut(s: State, a: Action, i: nat, key: Key, tag: Tag)
    requires TakesOut(s, i, key, tag) && !Adds(s, a, key, tag)
    ensures TakesOut(Next(s, a), i, key, tag)
  {
    if a == Remove(i) && s.ops[i].Deleting? && s.ops[i].tags != [] {
      var tags := s.ops[i].tags;
      assert tags == [tags[0]] + tags[1..];
    }
  }

  lemma {:induction false} DeletionTakesOut(actions: seq<Action>, g: nat, key: Key, tag: Tag)
    requires g < |actions| && actions[g] == Get(key) && Stored(Run(actions[..g]), key, tag)
    requires forall k | g < k < |actions| :: !Adds(Run(actions[..k]), actions[k], key, tag)
    ensures TakesOut(Run(actions), |Run(actions[..g]).ops|, key, tag)
  {
    hide Next, Adds, TakesOut;
    var n := |actions| - 1;
    var front := actions[..n];
    if n == g {
      GetStarts(Run(front), key, tag);
    } else {
      assert forall k | 0 <= k <= n :: front[..k] == actions[..k];
      DeletionTakesOut(front, g, key, tag);
      StepTakesOut(Run(front), actions[n], |Run(actions[..g]).ops|, key, tag);
    }
  }

  lemma {:induction false} GetStarts(s: State, key: Key, tag: Tag)
    requires Stored(s, key, tag)
    ensures TakesOut(Next(s, Get(key)), |s.ops|, key, tag)
  {
  }

  /**
   In every interleaving: a deletion that has ended has taken its key out of the set of every tag the
   entry had when it looked, unless the key was added to that set since.
   */
  lemma {:induction false} DeletionUnindexes(actions: seq<Action>, g: nat, key: Key, tag: Tag)
    requires g < |actions| && actions[g] == Get(key) && Stored(Run(actions[..g]), key, tag)
    requires forall k | g < k < |actions| :: !Adds(Run(actions[..k]), actions[k], key, tag)
    ensures var s, i := Run(actions), |Run(actions[..g]).ops|;
      i < |s.ops| && (s.ops[i].Deleting? || s.ops[i].Done?) && (s.ops[i].Done? ==> key !in Members(s, tag))
  {
    hide Next, Adds, Run;
    DeletionTakesOut(actions, g, key, tag);
  }
}
