/**
 The cache's tag index: bodies in an object store, metadata and one set of cache keys per tag in
 Redis.  Both back ends are maps here, their calls succeed, and no time-to-live runs out.
 */
module TagIndex {
  import opened Wrappers

  datatype Meta = Meta(tags: seq<string>, status: nat)

  type Body = seq<Byte>

  datatype Store = Store(objects: map<string, Body>, metas: map<string, Meta>, tagSets: map<string, set<string>>)

  // ------------------------------------------------------------------------------------------
  // Keys.

  function Joined(site: string, rest: string): string { site + ":" + rest }

  function MetaKey(site: string, key: string): string { "nozdormu:cache:meta:" + Joined(site, key) }

  function TagKey(site: string, tag: string): string { "nozdormu:cache:tag:" + Joined(site, tag) }

  function ObjectPath(site: string, key: string): string {
    var safe := if '/' in site || '\\' in site || Dots(site) || site == "" then "_invalid_" else site;
    "cache/" + safe + "/" + (if |key| >= 2 then key[..2] else key) + "/" + key
  }

  predicate Dots(s: string) {
    exists i | 0 <= i < |s| - 1 :: s[i] == '.' && s[i + 1] == '.'
  }

  /** Cache keys are hexadecimal digests; all that matters is that they have no colon. */
  predicate IsCacheKey(key: string) { ':' !in key }

  /** One site's name extends another's by a colon and more. */
  predicate Extends(longer: string, site: string) {
    |longer| > |site| && longer[..|site|] == site && longer[|site|] == ':'
  }

  lemma {:induction false} JoinedParts(site: string, rest: string)
    ensures var j := Joined(site, rest);
            |j| == |site| + 1 + |rest| && j[..|site|] == site && j[|site|] == ':' && j[|site| + 1..] == rest
  {
  }

  /** Equal joins come from the same pair unless one site's name extends the other's. */
  lemma {:induction false} JoinedDiffer(site: string, rest: string, site': string, rest': string)
    requires Joined(site, rest) == Joined(site', rest') && !Extends(site, site') && !Extends(site', site)
    ensures site == site' && rest == rest'
  {
    hide Joined;
    JoinedParts(site, rest);
    JoinedParts(site', rest');
  }

  lemma {:induction false} TagKeysDiffer(site: string, tag: string, site': string, tag': string)
    requires TagKey(site, tag) == TagKey(site', tag') && !Extends(site, site') && !Extends(site', site)
    ensures site == site' && tag == tag'
  {
    hide Joined;
    DropPrefix("nozdormu:cache:tag:", Joined(site, tag), Joined(site', tag'));
    JoinedDiffer(site, tag, site', tag');
  }

  lemma {:induction false} DropPrefix(prefix: string, a: string, b: string)
    requires prefix + a == prefix + b
    ensures a == b
  {
    assert (prefix + a)[|prefix|..] == a && (prefix + b)[|prefix|..] == b;
  }

  /** Cache keys hold no colon, so metadata keys are unambiguous whatever the sites are called. */
  lemma {:induction false} MetaKeysDiffer(site: string, key: string, site': string, key': string)
    requires MetaKey(site, key) == MetaKey(site', key') && IsCacheKey(key) && IsCacheKey(key')
    ensures site == site' && key == key'
  {
    hide Joined;
    DropPrefix("nozdormu:cache:meta:", Joined(site, key), Joined(site', key'));
    JoinedParts(site, key);
    JoinedParts(site', key');
  }

  // ------------------------------------------------------------------------------------------
  // Operations.

  function Members(sets: map<string, set<string>>, tagKey: string): set<string> {
    if tagKey in sets then sets[tagKey] else {}
  }

  function AddTags(sets: map<string, set<string>>, site: string, key: string, tags: seq<string>): map<string,
                   set<string>>
    decreases |tags|
  {
    if tags == [] then sets
    else
      var before := AddTags(sets, site, key, tags[..|tags| - 1]);
      var tk := TagKey(site, tags[|tags| - 1]);
      before[tk := Members(before, tk) + {key}]
  }

  function RemoveTags(sets: map<string, set<string>>, site: string, key: string,
                      tags: seq<string>): map<string, set<string>>
    decreases |tags|
  {
    if tags == [] then sets
    else
      var before := RemoveTags(sets, site, key, tags[..|tags| - 1]);
      var tk := TagKey(site, tags[|tags| - 1]);
      before[tk := Members(before, tk) - {key}]
  }

  function Put(st: Store, site: string, key: string, meta: Meta, body: Body): Store {
    Store(st.objects[ObjectPath(site, key) := body], st.metas[MetaKey(site, key) := meta],
          AddTags(st.tagSets, site, key, meta.tags))
  }

  function Delete(st: Store, site: string, key: string): Store {
    var mk := MetaKey(site, key);
    Store(st.objects - {ObjectPath(site, key)}, st.metas - {mk},
          if mk in st.metas then RemoveTags(st.tagSets, site, key, st.metas[mk].tags) else st.tagSets)
  }

  function DeleteMany(st: Store, site: string, keys: set<string>): Store {
    st.(objects := st.objects - (set k | k in keys :: ObjectPath(site, k)),
        metas := st.metas - (set k | k in keys :: MetaKey(site, k)))
  }

  function DeleteByTag(st: Store, site: string, tag: string): Store {
    var keys := Members(st.tagSets, TagKey(site, tag));
    if keys == {} then st
    else
      var t := DeleteMany(st, site, keys);
      t.(tagSets := t.tagSets - {TagKey(site, tag)})
  }

  class CacheStorage {
    var objects: map<string, Body>
    var metas: map<string, Meta>
    var tagSets: map<string, set<string>>

    function View(): Store
      reads this
    {
      Store(objects, metas, tagSets)
    }

    constructor ()
      ensures View() == Store(map[], map[], map[])
    {
      objects, metas, tagSets := map[], map[], map[];
    }

    method PutInPlace(site: string, key: string, meta: Meta, body: Body)
      modifies this
      ensures View() == Put(old(View()), site, key, meta, body)
    {
      hide MetaKey, TagKey, ObjectPath;
      objects := objects[ObjectPath(site, key) := body];
      metas := metas[MetaKey(site, key) := meta];
      assert meta.tags[..|meta.tags|] == meta.tags;
      for i := 0 to |meta.tags|
        invariant tagSets == AddTags(old(tagSets), site, key, meta.tags[..i])
        invariant objects == old(objects)[ObjectPath(site, key) := body]
        invariant metas == old(metas)[MetaKey(site, key) := meta]
      {
        var tk := TagKey(site, meta.tags[i]);
        assert meta.tags[..i + 1][..i] == meta.tags[..i];
        tagSets := tagSets[tk := Members(tagSets, tk) + {key}];
      }
    }

    method DeleteInPlace(site: string, key: string)
      modifies this
      ensures View() == Delete(old(View()), site, key)
    {
      hide MetaKey, TagKey, ObjectPath;
      var mk := MetaKey(site, key);
      if mk in metas {
        var tags := metas[mk].tags;
        assert tags[..|tags|] == tags;
        for i := 0 to |tags|
          invariant tagSets == RemoveTags(old(tagSets), site, key, tags[..i])
          invariant objects == old(objects) && metas == old(metas)
        {
          var tk := TagKey(site, tags[i]);
          assert tags[..i + 1][..i] == tags[..i];
          tagSets := tagSets[tk := Members(tagSets, tk) - {key}];
        }
      }
      objects := objects - {ObjectPath(site, key)};
      metas := metas - {mk};
    }

    /** Metadata goes in chunks of 100; the deletions within a chunk may run in any order. */
    method DeleteManyInPlace(site: string, keys: seq<string>)
      modifies this
      ensures View() == DeleteMany(old(View()), site, set k | k in keys)
    {
      hide MetaKey, ObjectPath;
      objects := objects - (set k | k in keys :: ObjectPath(site, k));
      var done := 0;
      while done < |keys|
        invariant 0 <= done <= |keys|
        invariant metas == old(metas) - (set k | k in keys[..done] :: MetaKey(site, k))
        invariant objects == old(objects) - (set k | k in keys :: ObjectPath(site, k)) && tagSets == old(tagSets)
      {
        var end := if done + 100 < |keys| then done + 100 else |keys|;
        for i := done to end
          invariant metas == old(metas) - (set k | k in keys[..i] :: MetaKey(site, k))
          invariant objects == old(objects) - (set k | k in keys :: ObjectPath(site, k)) && tagSets == old(tagSets)
        {
          assert keys[..i + 1] == keys[..i] + [keys[i]];
          metas := metas - {MetaKey(site, keys[i])};
        }
        done := end;
      }
      assert keys[..|keys|] == keys;
    }

    method DeleteByTagInPlace(site: string, tag: string)
      modifies this
      ensures View() == DeleteByTag(old(View()), site, tag)
    {
      hide MetaKey, TagKey, ObjectPath, DeleteMany;
      var tk := TagKey(site, tag);
      var keys := SMembers(Members(tagSets, tk));
      if keys == [] {
        return;
      }
      assert keys[0] in Members(tagSets, tk);
      assert (set k | k in keys) == Members(tagSets, tk);
      DeleteManyInPlace(site, keys);
      tagSets := tagSets - {tk};
    }
  }

  method SMembers(members: set<string>) returns (r: seq<string>)
    ensures forall k :: k in r <==> k in members
  {
    r := [];
    var rest := members;
    while rest != {}
      invariant forall k :: k in members <==> k in r || k in rest
      decreases |rest|
    {
      var k :| k in rest;
      r := r + [k];
      rest := rest - {k};
    }
  }

  // ------------------------------------------------------------------------------------------
  // What the index promises.

  predicate Tagged(site: string, tags: seq<string>, tagKey: string) {
    exists i | 0 <= i < |tags| :: TagKey(site, tags[i]) == tagKey
  }

  lemma {:induction false} AddedMembers(sets: map<string, set<string>>, site: string, key: string,
                                        tags: seq<string>, tagKey: string)
    ensures Members(AddTags(sets, site, key, tags), tagKey)
         == Members(sets, tagKey) + if Tagged(site, tags, tagKey) then {key} else {}
    decreases |tags|
  {
    hide TagKey;
    if tags != [] {
      AddedMembers(sets, site, key, tags[..|tags| - 1], tagKey);
      TaggedSnoc(site, tags, tagKey);
    }
  }

  lemma {:induction false} TaggedSnoc(site: string, tags: seq<string>, tagKey: string)
    requires tags != []
    ensures Tagged(site, tags, tagKey)
       <==> Tagged(site, tags[..|tags| - 1], tagKey) || TagKey(site, tags[|tags| - 1]) == tagKey
  {
  }

  lemma {:induction false} RemainingMembers(sets: map<string, set<string>>, site: string, key: string,
                                            tags: seq<string>, tagKey: string)
    ensures Members(RemoveTags(sets, site, key, tags), tagKey)
         == Members(sets, tagKey) - if Tagged(site, tags, tagKey) then {key} else {}
    decreases |tags|
  {
    hide TagKey;
    if tags != [] {
      RemainingMembers(sets, site, key, tags[..|tags| - 1], tagKey);
      TaggedSnoc(site, tags, tagKey);
    }
  }

  ghost predicate Stored(st: Store, site: string, key: string) {
    IsCacheKey(key) && MetaKey(site, key) in st.metas
  }

  function TagsOf(st: Store, site: string, key: string): seq<string> {
    var mk := MetaKey(site, key);
    if mk in st.metas then st.metas[mk].tags else []
  }

  /** Every stored entry's key is in the set of each of its tags. */
  ghost predicate Indexed(sites: set<string>, st: Store) {
    forall site, key, tag | site in sites && Stored(st, site, key) && tag in TagsOf(st, site, key) ::
      key in Members(st.tagSets, TagKey(site, tag))
  }

  ghost predicate Clean(st: Store) {
    forall tagKey, key | key in Members(st.tagSets, tagKey) :: IsCacheKey(key)
  }

  /** No site's name is another's followed by a colon and more. */
  ghost predicate Unambiguous(sites: set<string>) {
    forall s, s' | s in sites && s' in sites :: !Extends(s, s')
  }

  lemma {:induction false} PutKeeps(sites: set<string>, st: Store, site: string, key: string, meta: Meta, body: Body)
    requires Indexed(sites, st) && Clean(st) && IsCacheKey(key)
    ensures Indexed(sites, Put(st, site, key, meta, body)) && Clean(Put(st, site, key, meta, body))
  {
    hide MetaKey, TagKey, ObjectPath, AddTags;
    var t := Put(st, site, key, meta, body);
    forall s, k, tag | s in sites && Stored(t, s, k) && tag in TagsOf(t, s, k)
      ensures k in Members(t.tagSets, TagKey(s, tag))
    {
      AddedMembers(st.tagSets, site, key, meta.tags, TagKey(s, tag));
      if MetaKey(s, k) == MetaKey(site, key) {
        MetaKeysDiffer(s, k, site, key);
        var i :| 0 <= i < |meta.tags| && meta.tags[i] == tag;
        assert TagKey(site, meta.tags[i]) == TagKey(s, tag);
      } else {
        assert Stored(st, s, k) && tag in TagsOf(st, s, k);
      }
    }
    forall tagKey, k | k in Members(t.tagSets, tagKey)
      ensures IsCacheKey(k)
    {
      AddedMembers(st.tagSets, site, key, meta.tags, tagKey);
    }
  }

  lemma {:induction false} DeleteKeeps(sites: set<string>, st: Store, site: string, key: string)
    requires Indexed(sites, st) && Clean(st) && IsCacheKey(key) && Unambiguous(sites) && site in sites
    ensures Indexed(sites, Delete(st, site, key)) && Clean(Delete(st, site, key))
  {
    hide MetaKey, TagKey, ObjectPath, RemoveTags, Extends;
    var t := Delete(st, site, key);
    var tags := TagsOf(st, site, key);
    forall s, k, tag | s in sites && Stored(t, s, k) && tag in TagsOf(t, s, k)
      ensures k in Members(t.tagSets, TagKey(s, tag))
    {
      assert Stored(st, s, k) && tag in TagsOf(st, s, k);
      RemainingMembers(st.tagSets, site, key, tags, TagKey(s, tag));
      if i :| k == key && 0 <= i < |tags| && TagKey(site, tags[i]) == TagKey(s, tag) {
        TagKeysDiffer(site, tags[i], s, tag);
      }
    }
    forall tagKey, k | k in Members(t.tagSets, tagKey)
      ensures IsCacheKey(k)
    {
      RemainingMembers(st.tagSets, site, key, tags, tagKey);
    }
  }

  lemma {:induction false} DeleteManyKeeps(sites: set<string>, st: Store, site: string, keys: set<string>)
    requires Indexed(sites, st) && Clean(st)
    ensures Indexed(sites, DeleteMany(st, site, keys)) && Clean(DeleteMany(st, site, keys))
  {
  }

  lemma {:induction false} DeleteByTagKeeps(sites: set<string>, st: Store, site: string, tag: string)
    requires Indexed(sites, st) && Clean(st) && Unambiguous(sites) && site in sites
    ensures Indexed(sites, DeleteByTag(st, site, tag)) && Clean(DeleteByTag(st, site, tag))
  {
    hide MetaKey, TagKey, ObjectPath, Extends;
    var t := DeleteByTag(st, site, tag);
    forall s, k, tag' | s in sites && Stored(t, s, k) && tag' in TagsOf(t, s, k)
      ensures k in Members(t.tagSets, TagKey(s, tag'))
    {
      assert Stored(st, s, k) && tag' in TagsOf(st, s, k);
      if TagKey(s, tag') == TagKey(site, tag) {
        TagKeysDiffer(s, tag', site, tag);
      }
    }
    forall tagKey, k | k in Members(t.tagSets, tagKey)
      ensures IsCacheKey(k)
    {
      assert k in Members(st.tagSets, tagKey);
    }
  }

  // ------------------------------------------------------------------------------------------
  // Runs.

  datatype Action =
    | DoPut(site: string, key: string, meta: Meta, body: Body)
    | DoDelete(site: string, key: string)
    | DoDeleteMany(site: string, keys: set<string>)
    | DoDeleteByTag(site: string, tag: string)

  predicate Proper(sites: set<string>, a: Action) {
    a.site in sites && ((a.DoPut? || a.DoDelete?) ==> IsCacheKey(a.key))
  }

  function Next(st: Store, a: Action): Store {
    match a
    case DoPut(site, key, meta, body) => Put(st, site, key, meta, body)
    case DoDelete(site, key) => Delete(st, site, key)
    case DoDeleteMany(site, keys) => DeleteMany(st, site, keys)
    case DoDeleteByTag(site, tag) => DeleteByTag(st, site, tag)
  }

  function Empty(): Store { Store(map[], map[], map[]) }

  function Run(actions: seq<Action>): Store {
    if actions == [] then Empty() else Next(Run(actions[..|actions| - 1]), actions[|actions| - 1])
  }

  ghost predicate AllProper(sites: set<string>, actions: seq<Action>) {
    forall i | 0 <= i < |actions| :: Proper(sites, actions[i])
  }

  lemma {:induction false} EveryRun(sites: set<string>, actions: seq<Action>)
    requires Unambiguous(sites) && AllProper(sites, actions)
    ensures Indexed(sites, Run(actions)) && Clean(Run(actions))
  {
    hide Put, Delete, DeleteMany, DeleteByTag, Indexed, Clean, Unambiguous;
    if actions == [] {
      EmptyIsIndexed(sites);
    } else {
      var st, a := Run(actions[..|actions| - 1]), actions[|actions| - 1];
      EveryRun(sites, actions[..|actions| - 1]);
      match a
      case DoPut(site, key, meta, body) => PutKeeps(sites, st, site, key, meta, body);
      case DoDelete(site, key) => DeleteKeeps(sites, st, site, key);
      case DoDeleteMany(site, keys) => DeleteManyKeeps(sites, st, site, keys);
      case DoDeleteByTag(site, tag) => DeleteByTagKeeps(sites, st, site, tag);
    }
  }

  lemma {:induction false} EmptyIsIndexed(sites: set<string>)
    ensures Indexed(sites, Empty()) && Clean(Empty())
  {
  }

  lemma {:induction false} PurgeOfIndexed(sites: set<string>, st: Store, site: string, tag: string, key: string)
    requires Indexed(sites, st) && site in sites && IsCacheKey(key)
    ensures tag !in TagsOf(DeleteByTag(st, site, tag), site, key)
    ensures tag in TagsOf(st, site, key) ==> ObjectPath(site, key) !in DeleteByTag(st, site, tag).objects
  {
  }

  /**
   After any run, purging a tag leaves no entry of the site with it, and the objects of the entries
   that had it are gone.
   */
  lemma {:induction false} PurgeIsComplete(sites: set<string>, actions: seq<Action>, site: string, tag: string,
                                           key: string)
    requires Unambiguous(sites) && AllProper(sites, actions) && site in sites && IsCacheKey(key)
    ensures tag !in TagsOf(DeleteByTag(Run(actions), site, tag), site, key)
    ensures tag in TagsOf(Run(actions), site, key) ==>
              ObjectPath(site, key) !in DeleteByTag(Run(actions), site, tag).objects
  {
    hide Run, TagsOf, DeleteByTag, ObjectPath;
    EveryRun(sites, actions);
    PurgeOfIndexed(sites, Run(actions), site, tag, key);
  }

  /** A purge removes exactly the entries of that site whose keys are in the tag's set. */
  lemma {:induction false} PurgeRemovesMembers(st: Store, site: string, tag: string, site': string, key: string)
    requires Clean(st) && IsCacheKey(key)
    ensures Stored(DeleteByTag(st, site, tag), site', key)
       <==> Stored(st, site', key) && !(site' == site && key in Members(st.tagSets, TagKey(site, tag)))
  {
    hide MetaKey, TagKey, ObjectPath;
    var t := DeleteByTag(st, site, tag);
    if k :| k in Members(st.tagSets, TagKey(site, tag)) && MetaKey(site, k) == MetaKey(site', key) {
      MetaKeysDiffer(site, k, site', key);
    }
  }

  /** Writing a key again with other tags leaves it in the old tag's set: a purge of that tag removes it. */
  lemma {:induction false} StaleTagPurges(st: Store, site: string, key: string, a: string, b: string, body: Body)
    requires IsCacheKey(key) && a != b
    ensures var u := Put(Put(st, site, key, Meta([a], 200), body), site, key, Meta([b], 200), body);
            TagsOf(u, site, key) == [b] && !Stored(DeleteByTag(u, site, a), site, key)
  {
    hide MetaKey, TagKey, ObjectPath, AddTags;
    var p := Put(st, site, key, Meta([a], 200), body);
    AddedMembers(st.tagSets, site, key, [a], TagKey(site, a));
    AddedMembers(p.tagSets, site, key, [b], TagKey(site, a));
    assert TagKey(site, [a][0]) == TagKey(site, a);
    assert key in Members(p.tagSets, TagKey(site, a));
  }

  // ------------------------------------------------------------------------------------------
  // Site names with colons.

  lemma {:induction false} SharedTagKey(longer: string, site: string, tag: string)
    requires Extends(longer, site)
    ensures TagKey(longer, tag) == TagKey(site, longer[|site| + 1..] + ":" + tag)
  {
  }

  /** One site's entry, and a purge by the site whose name it extends: the entry loses its index. */
  lemma {:induction false} ForeignPurgeUnindexes(sites: set<string>, longer: string, site: string)
    requires longer in sites && site in sites && Extends(longer, site)
    ensures var other := longer[|site| + 1..] + ":" + "t";
            !Indexed(sites, DeleteByTag(Put(Empty(), longer, "k", Meta(["t"], 200), []), site, other))
  {
    var other := longer[|site| + 1..] + ":" + "t";
    var tk := TagKey(longer, "t");
    SharedTagKey(longer, site, "t");
    hide MetaKey, TagKey, ObjectPath, AddTags, Extends;
    var st := Put(Empty(), longer, "k", Meta(["t"], 200), []);
    AddedMembers(map[], longer, "k", ["t"], tk);
    assert TagKey(longer, ["t"][0]) == tk;
    var t := DeleteByTag(st, site, other);
    if MetaKey(site, "k") == MetaKey(longer, "k") { MetaKeysDiffer(site, "k", longer, "k"); }
  }

  /** Every run keeps the index exactly when no site's name extends another's by a colon. */
  lemma {:induction false} IndexedIff(sites: set<string>)
    ensures (forall actions: seq<Action> | AllProper(sites, actions) :: Indexed(sites, Run(actions)))
       <==> Unambiguous(sites)
  {
    if Unambiguous(sites) {
      forall actions: seq<Action> | AllProper(sites, actions)
        ensures Indexed(sites, Run(actions))
      {
        EveryRun(sites, actions);
      }
    } else {
      var longer, site :| longer in sites && site in sites && Extends(longer, site);
      var other := longer[|site| + 1..] + ":" + "t";
      var actions := [DoPut(longer, "k", Meta(["t"], 200), []), DoDeleteByTag(site, other)];
      ForeignPurgeUnindexes(sites, longer, site);
      assert actions[..1] == [actions[0]] && [actions[0]][..0] == [];
      assert AllProper(sites, actions);
      assert Run(actions[..1]) == Put(Empty(), longer, "k", Meta(["t"], 200), []);
    }
  }
}
