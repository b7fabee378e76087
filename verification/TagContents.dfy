/**
 What the cache holds after a run of whole operations: for every entry, the metadata and the body of
 its last write, unless a deletion or a purge took it out since.
 */
module TagContents {
  import opened Wrappers
  import opened TagIndex

  datatype Content = Content(meta: Meta, body: Body)

  /** Cache keys are hexadecimal digests. */
  predicate Plain(key: string) { ':' !in key && '/' !in key }

  /** The name is used in object paths as it is, and stands for no other. */
  predicate Named(site: string) {
    '/' !in site && '\\' !in site && !Dots(site) && site != "" && site != "_invalid_"
  }

  lemma {:induction false} SlashParts(a: string, b: string, a': string, b': string)
    requires a + "/" + b == a' + "/" + b' && '/' !in a && '/' !in a'
    ensures a == a' && b == b'
  {
    var p, p' := a + "/" + b, a' + "/" + b';
    assert p[|a|] == '/' && p'[|a'|] == '/';
    assert p[..|a|] == a && p'[..|a'|] == a' && p[|a| + 1..] == b && p'[|a'| + 1..] == b';
  }

  lemma {:induction false} PathIs(site: string, key: string) returns (safe: string, shard: string)
    requires Plain(key)
    ensures ObjectPath(site, key) == "cache/" + (safe + "/" + (shard + "/" + key))
    ensures '/' !in safe && '/' !in shard
    ensures if '/' in site || '\\' in site || Dots(site) || site == "" then safe == "_invalid_" else safe == site
  {
    hide Dots;
    safe := if '/' in site || '\\' in site || Dots(site) || site == "" then "_invalid_" else site;
    shard := if |key| >= 2 then key[..2] else key;
    assert "cache/" + safe + "/" + shard + "/" + key == "cache/" + (safe + "/" + (shard + "/" + key));
  }

  /** An object path tells its key, and its site if that is properly named. */
  lemma {:induction false} ObjectPathsDiffer(site: string, key: string, site': string, key': string)
    requires Plain(key) && Plain(key') && Named(site) && ObjectPath(site, key) == ObjectPath(site', key')
    ensures site == site' && key == key'
  {
    hide ObjectPath, Dots;
    var safe, shard := PathIs(site, key);
    var safe', shard' := PathIs(site', key');
    DropPrefix("cache/", safe + "/" + (shard + "/" + key), safe' + "/" + (shard' + "/" + key'));
    SlashParts(safe, shard + "/" + key, safe', shard' + "/" + key');
    SlashParts(shard, key, shard', key');
  }

  /** The two places of an entry hold this content, or nothing. */
  ghost predicate Holds(st: Store, site: string, key: string, c: Option<Content>) {
    match c
    case Some(x) =>
      && MetaKey(site, key) in st.metas && st.metas[MetaKey(site, key)] == x.meta
      && ObjectPath(site, key) in st.objects && st.objects[ObjectPath(site, key)] == x.body
    case None => MetaKey(site, key) !in st.metas && ObjectPath(site, key) !in st.objects
  }

  /** A purge takes out the keys in its tag's set at that moment. */
  ghost function Held(actions: seq<Action>, site: string, key: string): Option<Content> {
    if actions == [] then None
    else
      var front, a := actions[..|actions| - 1], actions[|actions| - 1];
      if a.site != site then Held(front, site, key)
      else match a
           case DoPut(_, k, meta, body) => if k == key then Some(Content(meta, body)) else Held(front, site, key)
           case DoDelete(_, k) => if k == key then None else Held(front, site, key)
           case DoDeleteMany(_, keys) => if key in keys then None else Held(front, site, key)
           case DoDeleteByTag(_, tag) =>
             if key in Members(Run(front).tagSets, TagKey(site, tag)) then None else Held(front, site, key)
  }

  predicate PlainKeys(a: Action) {
    match a
    case DoPut(_, k, _, _) => Plain(k)
    case DoDelete(_, k) => Plain(k)
    case DoDeleteMany(_, keys) => forall k | k in keys :: Plain(k)
    case DoDeleteByTag(_, _) => true
  }

  /** Only keys that were written are in a tag's set. */
  ghost predicate PlainMembers(st: Store) {
    forall tagKey, k | k in Members(st.tagSets, tagKey) :: Plain(k)
  }

  lemma {:induction false} MembersStayPlain(st: Store, a: Action)
    requires PlainMembers(st) && PlainKeys(a)
    ensures PlainMembers(Next(st, a))
  {
    hide MetaKey, TagKey, ObjectPath, AddTags, RemoveTags, Plain;
    forall tagKey, k | k in Members(Next(st, a).tagSets, tagKey) ensures Plain(k) {
      match a
      case DoPut(site, key, meta, _) => AddedMembers(st.tagSets, site, key, meta.tags, tagKey);
      case DoDelete(site, key) => RemainingMembers(st.tagSets, site, key, TagsOf(st, site, key), tagKey);
        assert k in Members(st.tagSets, tagKey);
      case DoDeleteMany(_, _) =>
      case DoDeleteByTag(_, _) => assert k in Members(st.tagSets, tagKey);
    }
  }

  lemma {:induction false} PutHolds(st: Store, s: string, k: string, meta: Meta, body: Body,
                                    site: string, key: string, c: Option<Content>)
    requires Holds(st, site, key, c) && Plain(k) && Plain(key) && Named(site)
    ensures Holds(Put(st, s, k, meta, body), site, key,
                  if s == site && k == key then Some(Content(meta, body)) else c)
  {
    hide MetaKey, ObjectPath, AddTags, Plain, Named;
    Apart(site, key, s, k);
  }

  /** Entries of different sites or keys share no place. */
  lemma {:induction false} Apart(site: string, key: string, s: string, k: string)
    requires Plain(k) && Plain(key) && Named(site)
    ensures (s, k) != (site, key) ==>
              MetaKey(s, k) != MetaKey(site, key) && ObjectPath(s, k) != ObjectPath(site, key)
  {
    hide MetaKey, ObjectPath, Named;
    if MetaKey(s, k) == MetaKey(site, key) { MetaKeysDiffer(s, k, site, key); }
    if ObjectPath(site, key) == ObjectPath(s, k) { ObjectPathsDiffer(site, key, s, k); }
  }

  lemma {:induction false} DeleteHolds(st: Store, s: string, k: string, site: string, key: string, c: Option<Content>)
    requires Holds(st, site, key, c) && Plain(k) && Plain(key) && Named(site)
    ensures Holds(Delete(st, s, k), site, key, if s == site && k == key then None else c)
  {
    hide MetaKey, ObjectPath, RemoveTags, Plain, Named;
    Apart(site, key, s, k);
  }

  lemma {:induction false} DeleteManyHolds(st: Store, s: string, keys: set<string>, site: string, key: string,
                                           c: Option<Content>)
    requires Holds(st, site, key, c) && Plain(key) && Named(site) && forall k | k in keys :: Plain(k)
    ensures Holds(DeleteMany(st, s, keys), site, key, if s == site && key in keys then None else c)
  {
    hide MetaKey, ObjectPath, Plain, Named;
    forall k | k in keys
      ensures (s, k) != (site, key) ==>
                MetaKey(s, k) != MetaKey(site, key) && ObjectPath(s, k) != ObjectPath(site, key)
    {
      Apart(site, key, s, k);
    }
  }

  lemma {:induction false} PurgeHolds(st: Store, s: string, tag: string, site: string, key: string, c: Option<Content>)
    requires Holds(st, site, key, c) && Plain(key) && Named(site) && PlainMembers(st)
    ensures Holds(DeleteByTag(st, s, tag), site, key,
                  if s == site && key in Members(st.tagSets, TagKey(site, tag)) then None else c)
  {
    hide MetaKey, ObjectPath, TagKey, Plain, Named, DeleteMany;
    var keys := Members(st.tagSets, TagKey(s, tag));
    DeleteManyHolds(st, s, keys, site, key, c);
  }

  /**
   After every run, an entry is read back as its last write, whole or not at all: no operation on
   another entry, of this site or of any other, changes it.
   */
  lemma {:induction false} ReadsLastWrite(actions: seq<Action>, site: string, key: string)
    requires Named(site) && Plain(key) && forall i | 0 <= i < |actions| :: PlainKeys(actions[i])
    ensures Holds(Run(actions), site, key, Held(actions, site, key))
    ensures PlainMembers(Run(actions))
  {
    hide MetaKey, ObjectPath, TagKey, Plain, Named, Holds, Put, Delete, DeleteMany, DeleteByTag, PlainMembers;
    if actions == [] {
      EmptyHoldsNothing(site, key);
    } else {
      var front, a := actions[..|actions| - 1], actions[|actions| - 1];
      var st, c := Run(front), Held(front, site, key);
      ReadsLastWrite(front, site, key);
      assert PlainKeys(a);
      MembersStayPlain(st, a);
      match a
      case DoPut(s, k, meta, body) => PutHolds(st, s, k, meta, body, site, key, c);
      case DoDelete(s, k) => DeleteHolds(st, s, k, site, key, c);
      case DoDeleteMany(s, keys) => DeleteManyHolds(st, s, keys, site, key, c);
      case DoDeleteByTag(s, tag) => PurgeHolds(st, s, tag, site, key, c);
    }
  }

  lemma {:induction false} EmptyHoldsNothing(site: string, key: string)
    ensures Holds(Empty(), site, key, None) && PlainMembers(Empty())
  {
  }
}
