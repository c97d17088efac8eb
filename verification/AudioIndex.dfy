/** The three indexes of the audio engine: sounds by id, ids by path, ids by profile. */
module AudioIndex {
  import opened Common

  const INVALID_AUDIO_ID := -1
  const TIME_DELAY_PRECISION := 0.0001

  datatype PlayState = Playing | Paused

  datatype Profile = Profile(name: string, maxInstances: nat, minDelay: real)

  /** Which profile helper: the default one or one by name. */
  datatype Key = Default | Named(name: string)

  datatype Helper = Helper(profile: Profile, audioIDs: seq<int>, lastPlayTime: Option<real>)

  datatype Info = Info(filePath: string, helper: Option<Key>, playState: PlayState, loop: bool)

  /** The static members of the engine. `paths` and `infos` are the maps from a path to its ids and from an id to its
      information; the default profile helper is kept beside the named ones. The order and the repetitions of the ids
      that a suspension breaks have no effect, so they are a set. */
  datatype State = State(
    platformMax: nat,
    paths: map<string, seq<int>>,
    helpers: map<Key, Helper>,
    infos: map<int, Info>,
    maxInstances: nat,
    broken: set<int>,
    backend: bool,
    enabled: bool)

  // ---- lists of ids ----

  /** `list::remove`, for several ids. */
  function Keep(ids: seq<int>, gone: set<int>): seq<int> {
    if ids == [] then []
    else if ids[0] in gone then Keep(ids[1..], gone)
    else [ids[0]] + Keep(ids[1..], gone)
  }

  lemma {:induction false} KeepIs(ids: seq<int>, gone: set<int>, id: int)
    ensures multiset(Keep(ids, gone))[id] == if id in gone then 0 else multiset(ids)[id]
  {
    if ids != [] {
      KeepIs(ids[1..], gone, id);
      assert ids == [ids[0]] + ids[1..];
    }
  }

  /** Those that stay do so in their order. */
  lemma {:induction false} KeepParts(ids: seq<int>, more: seq<int>, gone: set<int>)
    ensures Keep(ids + more, gone) == Keep(ids, gone) + Keep(more, gone)
    ensures forall id :: Keep([id], gone) == if id in gone then [] else [id]
  {
    if ids == [] {
      assert ids + more == more;
      assert forall id: int :: [id][1..] == [];
    } else {
      assert (ids + more)[0] == ids[0] && (ids + more)[1..] == ids[1..] + more;
      KeepParts(ids[1..], more, gone);
    }
  }

  lemma {:induction false} KeepFewer(ids: seq<int>, gone: set<int>)
    ensures |Keep(ids, gone)| <= |ids|
  {
    if ids != [] {
      KeepFewer(ids[1..], gone);
    }
  }

  lemma {:induction false} KeepAll(ids: seq<int>, gone: set<int>)
    requires forall i :: 0 <= i < |ids| ==> ids[i] !in gone
    ensures Keep(ids, gone) == ids
  {
    if ids != [] {
      KeepAll(ids[1..], gone);
      assert ids == [ids[0]] + ids[1..];
    }
  }

  lemma {:induction false} KeepTwice(ids: seq<int>, a: set<int>, b: set<int>)
    ensures Keep(Keep(ids, a), b) == Keep(ids, a + b)
  {
    if ids != [] {
      KeepTwice(ids[1..], a, b);
    }
  }

  // ---- one index ----

  /** The list holds every id whose key is `k` exactly once, and no other. */
  ghost predicate Lists<K>(ids: seq<int>, members: map<int, K>, k: K) {
    forall id :: multiset(ids)[id] == if id in members && members[id] == k then 1 else 0
  }

  /** Every member is in the list of its key exactly once, and in no other list. */
  ghost predicate Indexed<K>(lists: map<K, seq<int>>, members: map<int, K>) {
    (forall id :: id in members ==> members[id] in lists)
    && forall k :: k in lists ==> Lists(lists[k], members, k)
  }

  lemma IndexAdd<K>(lists: map<K, seq<int>>, members: map<int, K>, k: K, id: int)
    requires Indexed(lists, members) && id !in members && k in lists
    ensures Indexed(lists[k := lists[k] + [id]], members[id := k])
  {
  }

  lemma IndexOpen<K>(lists: map<K, seq<int>>, members: map<int, K>, k: K)
    requires Indexed(lists, members) && k !in lists
    ensures Indexed(lists[k := []], members)
  {
  }

  function KeepEach<K>(lists: map<K, seq<int>>, gone: set<int>): map<K, seq<int>> {
    map k | k in lists :: Keep(lists[k], gone)
  }

  lemma ListsKeep<K>(ids: seq<int>, members: map<int, K>, k: K, gone: set<int>)
    requires Lists(ids, members, k)
    ensures Lists(Keep(ids, gone), members - gone, k)
  {
    forall id ensures multiset(Keep(ids, gone))[id] == if id in members - gone && (members - gone)[id] == k then 1 else 0 {
      KeepIs(ids, gone, id);
    }
  }

  lemma IndexKeep<K>(lists: map<K, seq<int>>, members: map<int, K>, gone: set<int>)
    requires Indexed(lists, members)
    ensures Indexed(KeepEach(lists, gone), members - gone)
  {
    hide Lists, Keep;
    forall k | k in lists ensures Lists(Keep(lists[k], gone), members - gone, k) {
      ListsKeep(lists[k], members, k, gone);
    }
  }

  lemma IndexClose<K>(lists: map<K, seq<int>>, members: map<int, K>, k: K)
    requires Indexed(lists, members) && forall id :: id in members ==> members[id] != k
    ensures Indexed(lists - {k}, members)
  {
  }

  lemma NotListed<K>(ids: seq<int>, members: map<int, K>, k: K, id: int)
    requires Lists(ids, members, k) && !(id in members && members[id] == k)
    ensures Keep(ids, {id}) == ids
  {
    assert multiset(ids)[id] == 0;
    forall i | 0 <= i < |ids| ensures ids[i] != id {
      assert ids[i] in multiset(ids);
    }
    KeepAll(ids, {id});
  }

  /** Taking one id out of the list of its own key takes it out of all lists. */
  lemma KeepOne<K>(lists: map<K, seq<int>>, members: map<int, K>, id: int)
    requires Indexed(lists, members)
    ensures id in members ==> KeepEach(lists, {id}) == lists[members[id] := Keep(lists[members[id]], {id})]
    ensures id !in members ==> KeepEach(lists, {id}) == lists
  {
    hide Lists, Keep;
    forall k | k in lists && !(id in members && members[id] == k) ensures Keep(lists[k], {id}) == lists[k] {
      NotListed(lists[k], members, k, id);
    }
  }

  // ---- the invariant ----

  function HelperLists(helpers: map<Key, Helper>): map<Key, seq<int>> {
    map k | k in helpers :: helpers[k].audioIDs
  }

  function PathOf(infos: map<int, Info>): map<int, string> {
    map id | id in infos :: infos[id].filePath
  }

  function HelperOf(infos: map<int, Info>): map<int, Key> {
    map id | id in infos && infos[id].helper.Some? :: infos[id].helper.value
  }

  ghost predicate Consistent(s: State) {
    Indexed(s.paths, PathOf(s.infos)) && Indexed(HelperLists(s.helpers), HelperOf(s.infos))
  }

  /** The indexes agree, the number of sounds is bounded, and without a backend there is none. */
  ghost predicate Inv(s: State) {
    Consistent(s)
    && |s.infos| <= s.platformMax && 0 < s.maxInstances <= s.platformMax
    && (!s.backend ==> s.infos == map[])
  }

  /** What a raw pointer from an info leads to is there. */
  predicate Linked(s: State, id: int) {
    id in s.infos ==>
      s.infos[id].filePath in s.paths && (s.infos[id].helper.Some? ==> s.infos[id].helper.value in s.helpers)
  }

  lemma AllLinked(s: State, id: int)
    requires Consistent(s)
    ensures Linked(s, id)
  {
    hide Lists;
    if id in s.infos {
      assert PathOf(s.infos)[id] in s.paths;
      assert s.infos[id].helper.Some? ==> HelperOf(s.infos)[id] in HelperLists(s.helpers);
    }
  }

  // ---- taking sounds out ----

  function KeepHelpers(helpers: map<Key, Helper>, gone: set<int>): map<Key, Helper> {
    map k | k in helpers :: helpers[k].(audioIDs := Keep(helpers[k].audioIDs, gone))
  }

  function Dropped(s: State, gone: set<int>): State {
    s.(paths := KeepEach(s.paths, gone), helpers := KeepHelpers(s.helpers, gone), infos := s.infos - gone)
  }

  lemma DroppedConsistent(s: State, gone: set<int>)
    requires Consistent(s)
    ensures Consistent(Dropped(s, gone))
  {
    hide Indexed, Keep;
    var t := Dropped(s, gone);
    IndexKeep(s.paths, PathOf(s.infos), gone);
    IndexKeep(HelperLists(s.helpers), HelperOf(s.infos), gone);
    assert PathOf(t.infos) == PathOf(s.infos) - gone;
    assert HelperOf(t.infos) == HelperOf(s.infos) - gone;
    assert HelperLists(t.helpers) == KeepEach(HelperLists(s.helpers), gone);
  }

  lemma Fewer(infos: map<int, Info>, gone: set<int>)
    ensures |infos - gone| <= |infos|
  {
    assert (infos - gone).Keys == infos.Keys - gone;
    assert |infos.Keys| == |infos.Keys - gone| + |infos.Keys * gone|;
    assert |infos - gone| == |(infos - gone).Keys|;
  }

  lemma DroppedInv(s: State, gone: set<int>)
    requires Inv(s)
    ensures Inv(Dropped(s, gone))
  {
    hide Consistent;
    DroppedConsistent(s, gone);
    Fewer(s.infos, gone);
  }

  /** `remove`, as the source does it: in the lists that the info points to. */
  function Unlinked(s: State, id: int): State
    requires Linked(s, id)
  {
    if id !in s.infos then s
    else
      var info := s.infos[id];
      s.(helpers := if info.helper.None? then s.helpers else Shortened(s.helpers, info.helper.value, id),
         paths := s.paths[info.filePath := Keep(s.paths[info.filePath], {id})],
         infos := s.infos - {id})
  }

  function Shortened(helpers: map<Key, Helper>, k: Key, id: int): map<Key, Helper>
    requires k in helpers
  {
    helpers[k := helpers[k].(audioIDs := Keep(helpers[k].audioIDs, {id}))]
  }

  /** An id leaves all lists, although only two of them are looked at. */
  lemma UnlinkedIs(s: State, id: int)
    requires Consistent(s)
    ensures Linked(s, id) && Unlinked(s, id) == Dropped(s, {id})
  {
    AllLinked(s, id);
    HelpersOne(s, id);
    hide Lists, Keep;
    KeepOne(s.paths, PathOf(s.infos), id);
    assert id !in s.infos ==> s.infos - {id} == s.infos;
  }

  lemma HelpersOne(s: State, id: int)
    requires Consistent(s) && Linked(s, id)
    ensures KeepHelpers(s.helpers, {id})
      == if id in s.infos && s.infos[id].helper.Some? then Shortened(s.helpers, s.infos[id].helper.value, id) else s.helpers
  {
    hide Lists, Keep;
    var lists := HelperLists(s.helpers);
    KeepOne(lists, HelperOf(s.infos), id);
    assert forall k :: k in s.helpers ==> KeepEach(lists, {id})[k] == Keep(s.helpers[k].audioIDs, {id});
  }

  lemma KeepHelpersTwice(helpers: map<Key, Helper>, a: set<int>, b: set<int>)
    ensures KeepHelpers(KeepHelpers(helpers, a), b) == KeepHelpers(helpers, a + b)
  {
    forall k | k in helpers
      ensures Keep(Keep(helpers[k].audioIDs, a), b) == Keep(helpers[k].audioIDs, a + b)
    {
      KeepTwice(helpers[k].audioIDs, a, b);
    }
  }

  /** `stopAll` */
  function StoppedAll(s: State): State {
    if !s.backend then s
    else s.(helpers := KeepHelpers(s.helpers, s.infos.Keys), paths := map[], infos := map[])
  }

  lemma StoppedAllInv(s: State)
    requires Inv(s)
    ensures Inv(StoppedAll(s)) && StoppedAll(s).infos == map[]
    ensures forall k :: k in StoppedAll(s).helpers ==> StoppedAll(s).helpers[k].audioIDs == []
  {
    hide Indexed;
    var t := Dropped(s, s.infos.Keys);
    DroppedConsistent(s, s.infos.Keys);
    assert t.infos == map[];
    NothingListed(t);
    if s.backend {
      assert PathOf(StoppedAll(s).infos) == map[];
      NoPaths();
    } else {
      assert s.infos - s.infos.Keys == s.infos;
      NothingListed(s);
    }
  }

  lemma NoPaths()
    ensures Indexed<string>(map[], map[])
  {
  }

  lemma NothingListed(s: State)
    requires Consistent(s) && s.infos == map[]
    ensures forall k :: k in s.helpers ==> s.helpers[k].audioIDs == []
  {
    hide Lists;
    assert forall id :: id !in HelperOf(s.infos);
    forall k | k in s.helpers ensures s.helpers[k].audioIDs == [] {
      EmptyList(HelperLists(s.helpers)[k], HelperOf(s.infos), k);
    }
  }

  lemma EmptyList<K>(ids: seq<int>, members: map<int, K>, k: K)
    requires Lists(ids, members, k) && forall id :: id !in members
    ensures ids == []
  {
    if |ids| > 0 {
      var id := SomeMember(ids);
      assert false;
    }
  }

  lemma SomeMember(ids: seq<int>) returns (id: int)
    requires |ids| > 0
    ensures multiset(ids)[id] > 0
  {
    id := ids[0];
    assert id in ids;
  }

  /** The ids of a list. */
  function Members(ids: seq<int>): set<int> {
    set id | id in ids
  }

  /** `uncache` */
  function Uncached(s: State, path: string): State {
    if path !in s.paths then s
    else
      var gone := Members(s.paths[path]);
      s.(paths := s.paths - {path}, helpers := KeepHelpers(s.helpers, gone), infos := s.infos - gone)
  }

  /** Uncaching a path takes out exactly the sounds of that path. */
  lemma UncachedInv(s: State, path: string)
    requires Inv(s)
    ensures Inv(Uncached(s, path))
    ensures Uncached(s, path).infos == map id | id in s.infos && s.infos[id].filePath != path :: s.infos[id]
  {
    hide Consistent, Indexed, Members, KeepHelpers;
    UncachedInfos(s, path);
    if path in s.paths {
      UncachedConsistent(s, path);
      Fewer(s.infos, Members(s.paths[path]));
    }
  }

  lemma UncachedInfos(s: State, path: string)
    requires Consistent(s)
    ensures Uncached(s, path).infos == map id | id in s.infos && s.infos[id].filePath != path :: s.infos[id]
  {
    hide Lists, KeepHelpers;
    if path in s.paths {
      ListedIs(s.paths[path], PathOf(s.infos), path);
      hide Members;
      var t := Uncached(s, path).infos;
      assert forall id :: id in s.infos ==> (id in Members(s.paths[path]) <==> s.infos[id].filePath == path);
      assert forall id :: id in t <==> id in s.infos && s.infos[id].filePath != path;
    } else {
      assert forall id :: id in s.infos ==> PathOf(s.infos)[id] != path;
    }
  }

  lemma UncachedConsistent(s: State, path: string)
    requires Consistent(s) && path in s.paths
    ensures Consistent(Uncached(s, path))
  {
    hide Keep, Lists, Indexed;
    var gone := Members(s.paths[path]);
    DroppedConsistent(s, gone);
    KeepsOthers(s.paths, PathOf(s.infos), path, gone);
    var d, t := Dropped(s, gone), Uncached(s, path);
    assert t.paths == d.paths - {path};
    PathGone(s, path);
    IndexClose(d.paths, PathOf(d.infos), path);
  }

  lemma PathGone(s: State, path: string)
    requires Consistent(s) && path in s.paths
    ensures forall id :: id in PathOf(s.infos - Members(s.paths[path])) ==>
      PathOf(s.infos - Members(s.paths[path]))[id] != path
  {
    ListedIs(s.paths[path], PathOf(s.infos), path);
  }

  lemma ListedIs<K>(ids: seq<int>, members: map<int, K>, k: K)
    requires Lists(ids, members, k)
    ensures forall id :: id in Members(ids) <==> id in members && members[id] == k
  {
    forall id ensures id in Members(ids) <==> id in members && members[id] == k {
      assert id in ids <==> id in multiset(ids);
    }
  }

  lemma KeepsOthers<K>(lists: map<K, seq<int>>, members: map<int, K>, k: K, gone: set<int>)
    requires Indexed(lists, members) && k in lists && gone == Members(lists[k])
    ensures KeepEach(lists, gone) - {k} == lists - {k}
  {
    ListedIs(lists[k], members, k);
    forall other | other in lists && other != k ensures Keep(lists[other], gone) == lists[other] {
      ListedIs(lists[other], members, other);
      forall i | 0 <= i < |lists[other]| ensures lists[other][i] !in gone {
        var id := lists[other][i];
        assert id in Members(lists[other]);
        assert members[id] == other;
      }
      KeepAll(lists[other], gone);
    }
  }

  // ---- playing ----

  /** The profile argument of `play2d`: none, the address of the default profile, or another profile. */
  datatype ProfileArgument = NoProfile | DefaultProfile | Given(profile: Profile)

  /** A call of `play2d` with what it asks of its surroundings: whether the backend starts and the file exists, the
      time, and the id that the backend gives, if it comes to that. */
  datatype Request = Request(filePath: string, loop: bool, profile: ProfileArgument,
    starts: bool, fileExists: bool, now: real, id: int)

  /** The default profile must be there if its address is, and the backend gives fresh ids. */
  predicate Legal(s: State, q: Request) {
    (q.profile.DefaultProfile? ==> Default in s.helpers) && q.id !in s.infos
  }

  function HelperKey(helpers: map<Key, Helper>, profile: ProfileArgument): Option<Key> {
    match profile
    case NoProfile => if Default in helpers then Some(Default) else None
    case DefaultProfile => Some(Default)
    case Given(p) => Some(Named(p.name))
  }

  /** `sAudioPathProfileHelperMap[profile->name]`, with the profile copied into it. */
  function Profiled(s: State, profile: ProfileArgument): State {
    if !profile.Given? then s
    else
      var k := Named(profile.profile.name);
      s.(helpers := s.helpers[k :=
        if k in s.helpers then s.helpers[k].(profile := profile.profile) else Helper(profile.profile, [], None)])
  }

  function TooSoon(h: Helper, now: real): bool {
    h.profile.minDelay > TIME_DELAY_PRECISION && h.lastPlayTime.Some? && now - h.lastPlayTime.value <= h.profile.minDelay
  }

  function Full(h: Helper): bool {
    h.profile.maxInstances != 0 && |h.audioIDs| >= h.profile.maxInstances
  }

  function Started(s: State, q: Request, k: Option<Key>): State
    requires k.Some? ==> k.value in s.helpers
  {
    s.(paths := s.paths[q.filePath := (if q.filePath in s.paths then s.paths[q.filePath] else []) + [q.id]],
       infos := s.infos[q.id := Info(q.filePath, k, Playing, q.loop)],
       helpers := if k.None? then s.helpers
         else
           var h := s.helpers[k.value];
           s.helpers[k.value := h.(lastPlayTime := Some(q.now), audioIDs := h.audioIDs + [q.id])])
  }

  /** `play2d`, once the engine is up and the file is known to exist: the profile, the limits, the backend. */
  function Admitted(s: State, q: Request): (State, int)
    requires Legal(s, q)
  {
    var t, k := Profiled(s, q.profile), HelperKey(s.helpers, q.profile);
    if |t.infos| >= t.maxInstances then (t, INVALID_AUDIO_ID)
    else if k.Some? && (Full(t.helpers[k.value]) || TooSoon(t.helpers[k.value], q.now)) then (t, INVALID_AUDIO_ID)
    else if q.id == INVALID_AUDIO_ID then (t, INVALID_AUDIO_ID)
    else (Started(t, q, k), q.id)
  }

  /** `play2d`: the new state and the id, or -1. */
  function Played(s: State, q: Request): (State, int)
    requires Legal(s, q)
  {
    if !s.enabled || (!s.backend && !q.starts) then (s, INVALID_AUDIO_ID)
    else if !q.fileExists then (s.(backend := true), INVALID_AUDIO_ID)
    else Admitted(s.(backend := true), q)
  }

  lemma ProfiledConsistent(s: State, profile: ProfileArgument)
    requires Consistent(s)
    ensures Consistent(Profiled(s, profile))
  {
    hide Indexed;
    if profile.Given? {
      var k, t := Named(profile.profile.name), Profiled(s, profile);
      var lists := HelperLists(s.helpers);
      if k in s.helpers {
        assert HelperLists(t.helpers) == lists;
      } else {
        IndexOpen(lists, HelperOf(s.infos), k);
        assert HelperLists(t.helpers) == lists[k := []];
      }
    }
  }

  lemma StartedPaths(s: State, q: Request, k: Option<Key>)
    requires Consistent(s) && q.id !in s.infos && (k.Some? ==> k.value in s.helpers)
    ensures Indexed(Started(s, q, k).paths, PathOf(Started(s, q, k).infos))
  {
    hide Indexed;
    var t := Started(s, q, k);
    var paths := if q.filePath in s.paths then s.paths else s.paths[q.filePath := []];
    if q.filePath !in s.paths {
      IndexOpen(s.paths, PathOf(s.infos), q.filePath);
    }
    IndexAdd(paths, PathOf(s.infos), q.filePath, q.id);
    assert PathOf(t.infos) == PathOf(s.infos)[q.id := q.filePath];
    assert t.paths == paths[q.filePath := paths[q.filePath] + [q.id]];
  }

  lemma StartedConsistent(s: State, q: Request, k: Option<Key>)
    requires Consistent(s) && q.id !in s.infos && (k.Some? ==> k.value in s.helpers)
    ensures Consistent(Started(s, q, k))
  {
    hide Indexed, PathOf;
    StartedPaths(s, q, k);
    var t, lists := Started(s, q, k), HelperLists(s.helpers);
    if k.None? {
      assert HelperOf(t.infos) == HelperOf(s.infos);
    } else {
      IndexAdd(lists, HelperOf(s.infos), k.value, q.id);
      assert HelperOf(t.infos) == HelperOf(s.infos)[q.id := k.value];
      assert HelperLists(t.helpers) == lists[k.value := lists[k.value] + [q.id]];
    }
  }

  lemma PlayedInv(s: State, q: Request)
    requires Inv(s) && Legal(s, q)
    ensures Inv(Played(s, q).0)
  {
    hide Consistent, Started, Full, TooSoon;
    var s1 := s.(backend := true);
    SameIndexes(s, s1);
    ProfiledConsistent(s1, q.profile);
    var s2, k := Profiled(s1, q.profile), HelperKey(s.helpers, q.profile);
    StartedConsistent(s2, q, k);
    StartedCounts(s2, q, k);
  }

  lemma SameIndexes(s: State, t: State)
    requires t.paths == s.paths && t.helpers == s.helpers && t.infos == s.infos
    ensures Consistent(t) == Consistent(s)
  {
  }

  lemma StartedCounts(s: State, q: Request, k: Option<Key>)
    requires q.id !in s.infos && (k.Some? ==> k.value in s.helpers)
    ensures var t := Started(s, q, k);
      |t.infos| == |s.infos| + 1 && t.maxInstances == s.maxInstances && t.platformMax == s.platformMax
      && t.backend == s.backend
  {
  }

  /** The profile helper that a sound belongs to: that of the name handed in, or the default one if there is one. */
  ghost predicate BelongsTo(s: State, profile: ProfileArgument, k: Option<Key>) {
    match profile
    case Given(p) => k == Some(Named(p.name))
    case _ => k == if Default in s.helpers then Some(Default) else None
  }

  /** What a sound that starts leaves behind: an info that names its path and its profile, its id at the end of the list
      of each of the two, and in the helper the time and the profile handed in. All else is as before. */
  lemma PlayedRegisters(s: State, q: Request)
    requires Legal(s, q) && Played(s, q).1 != INVALID_AUDIO_ID
    ensures var t, id := Played(s, q).0, Played(s, q).1;
      && id == q.id && id in t.infos && t.infos == s.infos[id := t.infos[id]]
      && t.infos[id].filePath == q.filePath && t.infos[id].playState == Playing && t.infos[id].loop == q.loop
      && BelongsTo(s, q.profile, t.infos[id].helper)
      && t == s.(paths := t.paths, helpers := t.helpers, infos := t.infos, backend := true)
      && t.paths == s.paths[q.filePath := t.paths[q.filePath]]
      && t.paths[q.filePath] == (if q.filePath in s.paths then s.paths[q.filePath] else []) + [id]
      && match t.infos[id].helper
         case None => t.helpers == s.helpers
         case Some(k) =>
           k in t.helpers && t.helpers == s.helpers[k := t.helpers[k]]
           && t.helpers[k].lastPlayTime == Some(q.now)
           && t.helpers[k].audioIDs == (if k in s.helpers then s.helpers[k].audioIDs else []) + [id]
           && (if q.profile.Given? then t.helpers[k].profile == q.profile.profile
               else k in s.helpers && t.helpers[k].profile == s.helpers[k].profile)
  {
    hide Full, TooSoon;
  }

  /** A call that starts nothing changes no sound and no list. It may start the engine, and once the file is found the
      helper of the name handed in exists and has the profile. */
  lemma PlayedNothing(s: State, q: Request)
    requires Legal(s, q) && Played(s, q).1 == INVALID_AUDIO_ID
    ensures var t := Played(s, q).0;
      && t == s.(helpers := t.helpers, backend := t.backend)
      && (t.backend <==> s.backend || (s.enabled && q.starts))
      && if s.enabled && t.backend && q.fileExists && q.profile.Given? then
           var k := Named(q.profile.profile.name);
           k in t.helpers && t.helpers == s.helpers[k := t.helpers[k]] && t.helpers[k].profile == q.profile.profile
           && (if k in s.helpers then t.helpers[k] == s.helpers[k].(profile := q.profile.profile)
               else t.helpers[k].audioIDs == [] && t.helpers[k].lastPlayTime == None)
         else t.helpers == s.helpers
  {
    hide Full, TooSoon;
  }

  /** A sound that starts respects every limit there is: of the engine, of its profile, and the profile's delay. */
  lemma PlayedWithinLimits(s: State, q: Request)
    requires Inv(s) && Legal(s, q) && Played(s, q).1 != INVALID_AUDIO_ID
    ensures var t, id := Played(s, q).0, Played(s, q).1;
      s.enabled && t.backend && q.fileExists && |t.infos| == |s.infos| + 1 <= t.maxInstances
      && id in t.infos && BelongsTo(s, q.profile, t.infos[id].helper)
      && (t.infos[id].helper.Some? ==>
        var k := t.infos[id].helper.value;
        k in t.helpers && id in t.helpers[k].audioIDs && t.helpers[k].lastPlayTime == Some(q.now)
        && (q.profile.Given? ==> t.helpers[k].profile == q.profile.profile)
        && (t.helpers[k].profile.maxInstances == 0 || |t.helpers[k].audioIDs| <= t.helpers[k].profile.maxInstances)
        && (k in s.helpers && t.helpers[k].profile.minDelay > TIME_DELAY_PRECISION && s.helpers[k].lastPlayTime.Some? ==>
          q.now - s.helpers[k].lastPlayTime.value > t.helpers[k].profile.minDelay))
  {
    hide Consistent;
  }

  /** The profile that counts for a request, with the ids it has and when it was last used: the one handed in, or the
      default one if it exists. */
  function Governing(s: State, profile: ProfileArgument): Option<Helper> {
    match profile
    case Given(p) =>
      var k := Named(p.name);
      Some(if k in s.helpers then s.helpers[k].(profile := p) else Helper(p, [], None))
    case _ => if Default in s.helpers then Some(s.helpers[Default]) else None
  }

  /** A sound starts exactly if the engine is enabled and runs or can be started, the file is there, the engine has
      room, the profile has room and its delay is over, and the backend gives an id. */
  lemma StartsExactly(s: State, q: Request)
    requires Inv(s) && Legal(s, q)
    ensures Played(s, q).1 != INVALID_AUDIO_ID <==>
      s.enabled && (s.backend || q.starts) && q.fileExists && |s.infos| < s.maxInstances
      && (Governing(s, q.profile).Some? ==>
        var h := Governing(s, q.profile).value;
        (h.profile.maxInstances == 0 || |h.audioIDs| < h.profile.maxInstances)
        && (h.profile.minDelay > TIME_DELAY_PRECISION && h.lastPlayTime.Some? ==>
          q.now - h.lastPlayTime.value > h.profile.minDelay))
      && q.id != INVALID_AUDIO_ID
    ensures Played(s, q).1 == INVALID_AUDIO_ID ==> Played(s, q).0.infos == s.infos && Played(s, q).0.paths == s.paths
  {
    hide Consistent;
  }

  // ---- pausing ----

  function WithState(info: Info, from: PlayState, to: PlayState): Info {
    if info.playState == from then info.(playState := to) else info
  }

  /** The sounds among `which` that are in state `from` go over to `to`. */
  function Turned(infos: map<int, Info>, which: set<int>, from: PlayState, to: PlayState): map<int, Info> {
    map id | id in infos :: if id in which then WithState(infos[id], from, to) else infos[id]
  }

  function InState(infos: map<int, Info>, playState: PlayState): set<int> {
    set id | id in infos && infos[id].playState == playState
  }

  function Background(s: State): State {
    s.(infos := Turned(s.infos, s.infos.Keys, Playing, Paused), broken := s.broken + InState(s.infos, Playing))
  }

  function Foreground(s: State): State {
    s.(infos := Turned(s.infos, s.broken, Paused, Playing), broken := {})
  }

  lemma TurnedInv(s: State, which: set<int>, from: PlayState, to: PlayState)
    requires Inv(s)
    ensures Inv(s.(infos := Turned(s.infos, which, from, to)))
  {
    hide Indexed;
    var t := s.(infos := Turned(s.infos, which, from, to));
    assert forall id :: id in s.infos ==>
      t.infos[id].filePath == s.infos[id].filePath && t.infos[id].helper == s.infos[id].helper;
    assert t.infos.Keys == s.infos.Keys;
    hide Turned;
    assert PathOf(t.infos) == PathOf(s.infos);
    assert HelperOf(t.infos) == HelperOf(s.infos);
    assert |t.infos| == |t.infos.Keys| && |s.infos| == |s.infos.Keys|;
  }

  /** Going to the background and back changes nothing, exactly if no sound was already on the list of those to be
      resumed while it was paused. */
  lemma BackgroundForeground(s: State)
    ensures Foreground(Background(s)).broken == {}
    ensures Foreground(Background(s)).infos == s.infos
      <==> forall id :: id in s.broken && id in s.infos ==> s.infos[id].playState != Paused
  {
    var t, u := Background(s), Foreground(Background(s));
    forall id | id in s.infos
      ensures u.infos[id] == if id in s.broken then s.infos[id].(playState := Playing) else s.infos[id]
    {
      assert id in t.broken <==> id in s.broken || s.infos[id].playState == Playing;
    }
    assert u.infos.Keys == s.infos.Keys;
    hide Background, Foreground;
    if forall id :: id in s.broken && id in s.infos ==> s.infos[id].playState != Paused {
      assert forall id :: id in s.infos ==> u.infos[id] == s.infos[id];
    } else {
      var id :| id in s.broken && id in s.infos && s.infos[id].playState == Paused;
      assert u.infos[id] != s.infos[id];
    }
  }

  // ---- runs ----

  /** `end`: everything stops, and backend and default profile are deleted. */
  function Ended(s: State): State {
    var t := StoppedAll(s);
    t.(backend := false, helpers := t.helpers - {Default})
  }

  lemma EndedInv(s: State)
    requires Inv(s)
    ensures Inv(Ended(s)) && Ended(s).infos == map[]
  {
    hide Consistent;
    StoppedAllInv(s);
    EndedConsistent(StoppedAll(s));
    SameIndexes(Ended(s), StoppedAll(s).(helpers := StoppedAll(s).helpers - {Default}));
  }

  lemma EndedConsistent(s: State)
    requires Consistent(s) && s.infos == map[]
    ensures Consistent(s.(helpers := s.helpers - {Default}))
  {
    hide Lists;
    var t := s.(helpers := s.helpers - {Default});
    assert HelperLists(t.helpers) == HelperLists(s.helpers) - {Default};
    assert forall id :: id !in HelperOf(s.infos);
    IndexClose(HelperLists(s.helpers), HelperOf(s.infos), Default);
  }

  function WithDefault(s: State): State {
    if Default in s.helpers then s else s.(helpers := s.helpers[Default := Helper(Profile("", 0, 0.0), [], None)])
  }

  lemma WithDefaultInv(s: State)
    requires Inv(s)
    ensures Inv(WithDefault(s))
  {
    hide Indexed;
    if Default !in s.helpers {
      IndexOpen(HelperLists(s.helpers), HelperOf(s.infos), Default);
      assert HelperLists(WithDefault(s).helpers) == HelperLists(s.helpers)[Default := []];
    }
  }

  datatype Event =
    | Play2d(request: Request)
    | Stop(id: int)
    | Remove(id: int)
    | StopAll
    | Uncache(path: string)
    | SetEnabled(on: bool)
    | SetMaxAudioInstance(max: int)
    | End
    | Pause(id: int)
    | Resume(id: int)
    | PauseAll
    | ResumeAll
    | OnEnterBackground
    | OnEnterForeground
    | GetDefaultProfile

  predicate Possible(s: State, e: Event) {
    e.Play2d? ==> Legal(s, e.request)
  }

  function Step(s: State, e: Event): State
    requires Possible(s, e)
  {
    match e
    case Play2d(request) => Played(s, request).0
    case Stop(id) => Dropped(s, {id})
    case Remove(id) => Dropped(s, {id})
    case StopAll => StoppedAll(s)
    case Uncache(path) => Uncached(s, path)
    case SetEnabled(on) =>
      if s.enabled == on then s else if on then s.(enabled := true) else StoppedAll(s.(enabled := false))
    case SetMaxAudioInstance(max) => if 0 < max <= s.platformMax then s.(maxInstances := max) else s
    case End => Ended(s)
    case Pause(id) => s.(infos := Turned(s.infos, {id}, Playing, Paused))
    case Resume(id) => s.(infos := Turned(s.infos, {id}, Paused, Playing))
    case PauseAll => s.(infos := Turned(s.infos, s.infos.Keys, Playing, Paused))
    case ResumeAll => s.(infos := Turned(s.infos, s.infos.Keys, Paused, Playing))
    case OnEnterBackground => Background(s)
    case OnEnterForeground => Foreground(s)
    case GetDefaultProfile => WithDefault(s)
  }

  lemma StepInv(s: State, e: Event)
    requires Inv(s) && Possible(s, e)
    ensures Inv(Step(s, e))
  {
    hide Consistent, Turned, Played, Dropped, Uncached, StoppedAll, Ended, WithDefault;
    match e {
      case Play2d(request) => PlayedInv(s, request);
      case Stop(id) => DroppedInv(s, {id});
      case Remove(id) => DroppedInv(s, {id});
      case StopAll => StoppedAllInv(s);
      case Uncache(path) => UncachedInv(s, path);
      case SetEnabled(on) =>
        SameIndexes(s, s.(enabled := on));
        StoppedAllInv(s.(enabled := on));
      case SetMaxAudioInstance(max) => SameIndexes(s, Step(s, e));
      case End => EndedInv(s);
      case Pause(id) => TurnedInv(s, {id}, Playing, Paused);
      case Resume(id) => TurnedInv(s, {id}, Paused, Playing);
      case PauseAll => TurnedInv(s, s.infos.Keys, Playing, Paused);
      case ResumeAll => TurnedInv(s, s.infos.Keys, Paused, Playing);
      case OnEnterBackground =>
        TurnedInv(s, s.infos.Keys, Playing, Paused);
        SameIndexes(s.(infos := Turned(s.infos, s.infos.Keys, Playing, Paused)), Step(s, e));
      case OnEnterForeground =>
        TurnedInv(s, s.broken, Paused, Playing);
        SameIndexes(s.(infos := Turned(s.infos, s.broken, Paused, Playing)), Step(s, e));
      case GetDefaultProfile => WithDefaultInv(s);
    }
  }

  function Init(platformMax: nat): State {
    State(platformMax, map[], map[], map[], platformMax, {}, false, true)
  }

  function Run(s: State, es: seq<Event>): Option<State>
    decreases |es|
  {
    if es == [] then Some(s) else if Possible(s, es[0]) then Run(Step(s, es[0]), es[1..]) else None
  }

  lemma InitInv(platformMax: nat)
    requires platformMax > 0
    ensures Inv(Init(platformMax))
  {
  }

  /** The invariant holds after every sequence of operations. */
  lemma {:induction false} RunKeeps(s: State, es: seq<Event>)
    requires Inv(s) && Run(s, es).Some?
    ensures Inv(Run(s, es).value)
    decreases |es|
  {
    hide Inv, Step;
    if es != [] {
      StepInv(s, es[0]);
      RunKeeps(Step(s, es[0]), es[1..]);
    }
  }

  /** Spelled out: in every reachable state an id is in the list of a path once if its info names the path, and not at
      all otherwise; likewise for the helpers; and there are never more sounds than the platform allows. */
  lemma Reachable(platformMax: nat, es: seq<Event>, id: int, path: string, k: Key)
    requires platformMax > 0 && Run(Init(platformMax), es).Some?
    ensures var s := Run(Init(platformMax), es).value;
      (path in s.paths ==> multiset(s.paths[path])[id] == if id in s.infos && s.infos[id].filePath == path then 1 else 0)
      && (id in s.infos ==> s.infos[id].filePath in s.paths)
      && (k in s.helpers ==>
        multiset(s.helpers[k].audioIDs)[id] == if id in s.infos && s.infos[id].helper == Some(k) then 1 else 0)
      && (id in s.infos && s.infos[id].helper.Some? ==> s.infos[id].helper.value in s.helpers)
      && |s.infos| <= platformMax
  {
    InitInv(platformMax);
    RunKeeps(Init(platformMax), es);
    RunPlatform(Init(platformMax), es);
    hide Run;
    var s := Run(Init(platformMax), es).value;
    AllLinked(s, id);
    assert k in s.helpers ==> Lists(HelperLists(s.helpers)[k], HelperOf(s.infos), k);
  }

  lemma {:induction false} RunPlatform(s: State, es: seq<Event>)
    requires Run(s, es).Some?
    ensures Run(s, es).value.platformMax == s.platformMax
    decreases |es|
  {
    if es != [] {
      RunPlatform(Step(s, es[0]), es[1..]);
    }
  }

  // ---- the limit of a profile, over whole runs ----

  predicate IsUnder(e: Event, name: string) {
    e.Play2d? && e.request.profile.Given? && e.request.profile.profile.name == name
  }

  /** Every call under this name hands in a profile with this limit. */
  predicate FixedLimit(es: seq<Event>, name: string, max: nat) {
    forall i :: 0 <= i < |es| && IsUnder(es[i], name) ==> es[i].request.profile.profile.maxInstances == max
  }

  /** The helper of the name has no more ids than the limit. */
  predicate Limited(s: State, name: string, max: nat) {
    var k := Named(name);
    k in s.helpers ==> s.helpers[k].profile.maxInstances == max && |s.helpers[k].audioIDs| <= max
  }

  lemma KeepLimited(s: State, gone: set<int>, name: string, max: nat)
    requires Limited(s, name, max)
    ensures forall t: State :: t.helpers == KeepHelpers(s.helpers, gone) ==> Limited(t, name, max)
  {
    var k := Named(name);
    if k in s.helpers {
      KeepFewer(s.helpers[k].audioIDs, gone);
    }
  }

  lemma PlayLimited(s: State, q: Request, name: string, max: nat)
    requires Inv(s) && Legal(s, q) && Limited(s, name, max) && FixedLimit([Play2d(q)], name, max) && max > 0
    ensures Limited(Played(s, q).0, name, max)
  {
    assert [Play2d(q)][0].Play2d?;
    if Played(s, q).1 == INVALID_AUDIO_ID {
      PlayedNothing(s, q);
    } else {
      PlayedRegisters(s, q);
      PlayedWithinLimits(s, q);
    }
    hide Inv, Played, Legal;
  }

  lemma StepLimited(s: State, e: Event, name: string, max: nat)
    requires Inv(s) && Possible(s, e) && Limited(s, name, max) && FixedLimit([e], name, max) && max > 0
    ensures Limited(Step(s, e), name, max)
  {
    hide Inv, Keep, Turned, Played, KeepHelpers, Members, FixedLimit;
    match e {
      case Play2d(request) => PlayLimited(s, request, name, max);
      case Stop(id) => KeepLimited(s, {id}, name, max);
      case Remove(id) => KeepLimited(s, {id}, name, max);
      case StopAll => KeepLimited(s, s.infos.Keys, name, max);
      case Uncache(path) => if path in s.paths { KeepLimited(s, Members(s.paths[path]), name, max); }
      case SetEnabled(_) => KeepLimited(s, s.infos.Keys, name, max);
      case End => KeepLimited(s, s.infos.Keys, name, max);
      case _ =>
    }
  }

  lemma {:induction false} RunLimited(s: State, es: seq<Event>, name: string, max: nat)
    requires Inv(s) && Run(s, es).Some? && Limited(s, name, max) && FixedLimit(es, name, max) && max > 0
    ensures Limited(Run(s, es).value, name, max)
    decreases |es|
  {
    hide Inv, Step, Limited, Possible;
    if es != [] {
      assert FixedLimit([es[0]], name, max) && FixedLimit(es[1..], name, max);
      hide FixedLimit;
      StepInv(s, es[0]);
      StepLimited(s, es[0], name, max);
      RunLimited(Step(s, es[0]), es[1..], name, max);
    }
  }

  /** The sounds that belong to a profile name. */
  function LiveUnder(s: State, name: string): set<int> {
    set id | id in s.infos && s.infos[id].helper == Some(Named(name))
  }

  /** In every run in which the profiles of a name have one limit, there are never more sounds of the name than that. */
  lemma NeverOverLimit(platformMax: nat, es: seq<Event>, name: string, max: nat)
    requires platformMax > 0 && max > 0 && Run(Init(platformMax), es).Some? && FixedLimit(es, name, max)
    ensures |LiveUnder(Run(Init(platformMax), es).value, name)| <= max
  {
    InitInv(platformMax);
    RunKeeps(Init(platformMax), es);
    RunLimited(Init(platformMax), es, name, max);
    hide Run, FixedLimit;
    LiveListed(Run(Init(platformMax), es).value, name);
  }

  lemma LiveListed(s: State, name: string)
    requires Consistent(s)
    ensures var k := Named(name);
      if k in s.helpers then |LiveUnder(s, name)| <= |s.helpers[k].audioIDs| else LiveUnder(s, name) == {}
  {
    hide Lists;
    var k := Named(name);
    if k in s.helpers {
      assert HelperLists(s.helpers)[k] == s.helpers[k].audioIDs;
      ListedIs(s.helpers[k].audioIDs, HelperOf(s.infos), k);
      assert forall id :: id in LiveUnder(s, name) <==> id in HelperOf(s.infos) && HelperOf(s.infos)[id] == k;
      SameIds(LiveUnder(s, name), Members(s.helpers[k].audioIDs), HelperOf(s.infos), k);
      MembersCount(s.helpers[k].audioIDs);
    } else {
      forall id | id in s.infos ensures id !in LiveUnder(s, name) {
        AllLinked(s, id);
      }
    }
  }

  lemma SameIds<K>(a: set<int>, b: set<int>, members: map<int, K>, k: K)
    requires forall id :: id in a <==> id in members && members[id] == k
    requires forall id :: id in b <==> id in members && members[id] == k
    ensures a == b
  {
    assert forall id :: id in a <==> id in b;
  }

  lemma {:induction false} MembersCount(ids: seq<int>)
    ensures |Members(ids)| <= |ids|
  {
    if ids != [] {
      MembersCount(ids[1..]);
      assert Members(ids) == {ids[0]} + Members(ids[1..]);
    } else {
      assert Members(ids) == {};
    }
  }

  // ---- what the other operations do ----

  /** Only the sounds in `gone` are taken out, and no setting changes. */
  predicate Loses(s: State, t: State, gone: set<int>) {
    t.infos == (map id | id in s.infos && id !in gone :: s.infos[id])
    && t == s.(paths := t.paths, helpers := t.helpers, infos := t.infos)
    && t.helpers.Keys == s.helpers.Keys
    && forall k :: k in s.helpers ==> t.helpers[k] == s.helpers[k].(audioIDs := t.helpers[k].audioIDs)
  }

  lemma LosesDropped(s: State, t: State, gone: set<int>)
    requires t == s.(paths := t.paths, helpers := t.helpers, infos := t.infos)
    requires t.infos == s.infos - gone && (t.helpers == s.helpers || t.helpers == KeepHelpers(s.helpers, gone))
    ensures Loses(s, t, gone)
  {
    hide Keep;
    assert forall id :: id in t.infos <==> id in s.infos && id !in gone;
  }

  lemma StopAllLoses(s: State)
    requires !s.backend ==> s.infos == map[]
    ensures Loses(s, StoppedAll(s), s.infos.Keys)
  {
    hide Loses, KeepHelpers;
    assert s.infos - s.infos.Keys == map[];
    LosesDropped(s, StoppedAll(s), s.infos.Keys);
  }

  /** `stop` and `remove` take out one sound and `uncache` those of a path, and `stopAll` leaves no sound. */
  lemma StopOutcome(s: State, id: int, path: string)
    requires Inv(s)
    ensures Loses(s, Step(s, Event.Stop(id)), {id}) && Loses(s, Step(s, Event.Remove(id)), {id})
    ensures Loses(s, Step(s, Event.StopAll), s.infos.Keys)
    ensures Loses(s, Step(s, Event.Uncache(path)), set i | i in s.infos && s.infos[i].filePath == path)
    ensures path !in Step(s, Event.Uncache(path)).paths
  {
    hide Consistent, Loses, KeepHelpers, StoppedAll, Uncached;
    LosesDropped(s, Dropped(s, {id}), {id});
    StopAllLoses(s);
    UncacheLoses(s, path);
  }

  lemma UncacheLoses(s: State, path: string)
    requires Consistent(s)
    ensures Loses(s, Uncached(s, path), set i | i in s.infos && s.infos[i].filePath == path)
    ensures path !in Uncached(s, path).paths
  {
    hide Loses, KeepHelpers, Members, Lists;
    var gone := set i | i in s.infos && s.infos[i].filePath == path;
    if path in s.paths {
      ListedIs(s.paths[path], PathOf(s.infos), path);
      var ids := Members(s.paths[path]);
      SameIds(ids, gone, PathOf(s.infos), path);
      LosesDropped(s, Uncached(s, path), ids);
    } else {
      assert forall i :: i in s.infos ==> PathOf(s.infos)[i] != path;
      assert gone == {} && s.infos - {} == s.infos;
      LosesDropped(s, s, {});
    }
  }

  /** Disabling leaves no sound, and enabling changes nothing else. */
  lemma EnabledOutcome(s: State, on: bool)
    requires Inv(s)
    ensures var t := Step(s, Event.SetEnabled(on));
      t.enabled == on && Loses(s.(enabled := on), t, if s.enabled && !on then s.infos.Keys else {})
  {
    hide Consistent, StoppedAll, Loses;
    StopAllLoses(s.(enabled := on));
    assert s.infos - {} == s.infos;
    LosesDropped(s.(enabled := on), s.(enabled := on), {});
    StoppedAllEnabled(s.(enabled := on));
  }

  lemma StoppedAllEnabled(s: State)
    ensures StoppedAll(s).enabled == s.enabled && StoppedAll(s).helpers.Keys == s.helpers.Keys
  {
    hide Keep;
  }

  /** The limit changes exactly if the new one is in range. */
  lemma LimitOutcome(s: State, max: int)
    ensures var t := Step(s, Event.SetMaxAudioInstance(max));
      t == s.(maxInstances := t.maxInstances)
      && (t.maxInstances == max <==> 0 < max <= s.platformMax || s.maxInstances == max)
      && (!(0 < max <= s.platformMax) ==> t == s)
  {
    hide Played;
  }

  /** The default profile starts out without a limit and without sounds, and is not made twice. */
  lemma DefaultOutcome(s: State)
    ensures var t := Step(s, Event.GetDefaultProfile);
      t == s.(helpers := t.helpers) && t.helpers.Keys == s.helpers.Keys + {Default}
      && (forall k :: k in s.helpers ==> t.helpers[k] == s.helpers[k])
      && (Default !in s.helpers ==> t.helpers[Default].audioIDs == [] && t.helpers[Default].lastPlayTime == None
                                    && t.helpers[Default].profile.maxInstances == 0
                                    && t.helpers[Default].profile.minDelay == 0.0)
  {
    hide Played;
  }

  /** The end leaves no sound, no backend and no default profile. */
  lemma EndOutcome(s: State)
    requires Inv(s)
    ensures var t := Step(s, Event.End);
      !t.backend && t.infos == map[] && t.helpers.Keys == s.helpers.Keys - {Default} && t.enabled == s.enabled
  {
    StoppedAllInv(s);
    StoppedAllEnabled(s);
    hide Inv, StoppedAll;
  }

  /** The sounds in `which` are in this state, all else is as before. */
  predicate Turns(s: State, t: State, which: set<int>, playState: PlayState) {
    t == s.(infos := t.infos, broken := t.broken) && t.infos.Keys == s.infos.Keys
    && forall id :: id in s.infos ==>
         t.infos[id] == if id in which then s.infos[id].(playState := playState) else s.infos[id]
  }

  /** Whatever state they were in, pausing leaves sounds paused and resuming leaves them playing. */
  lemma PauseOutcome(s: State, id: int)
    ensures Turns(s, Step(s, Event.Pause(id)), {id}, Paused) && Step(s, Event.Pause(id)).broken == s.broken
    ensures Turns(s, Step(s, Event.Resume(id)), {id}, Playing) && Step(s, Event.Resume(id)).broken == s.broken
  {
    hide Played;
  }

  lemma PauseAllOutcome(s: State)
    ensures Turns(s, Step(s, PauseAll), s.infos.Keys, Paused) && Step(s, PauseAll).broken == s.broken
    ensures Turns(s, Step(s, ResumeAll), s.infos.Keys, Playing) && Step(s, ResumeAll).broken == s.broken
  {
    hide Played;
  }

  /** After a suspension all sounds are paused and those that were playing are remembered; on the way back exactly the
      remembered ones play, and none is remembered. */
  lemma SuspendOutcome(s: State)
    ensures var t := Step(s, OnEnterBackground);
      Turns(s, t, s.infos.Keys, Paused)
      && forall i :: i in t.broken <==> i in s.broken || (i in s.infos && s.infos[i].playState == Playing)
    ensures Turns(s, Step(s, OnEnterForeground), s.broken, Playing) && Step(s, OnEnterForeground).broken == {}
  {
    hide Played;
  }

  /** A second suspension without a resumption in between: the sound is paused and still to be resumed, so the next way
      to the background and back starts it. */
  lemma SuspendedTwice(q: Request)
    requires q.starts && q.fileExists && q.id != INVALID_AUDIO_ID && q.profile.NoProfile?
    ensures var es := [Play2d(q), OnEnterBackground];
      Run(Init(1), es).Some?
      && var s := Run(Init(1), es).value;
         Inv(s) && q.id in s.infos && s.infos[q.id].playState == Paused && q.id in s.broken
         && q.id in Foreground(Background(s)).infos
         && Foreground(Background(s)).infos[q.id].playState == Playing
  {
    hide Inv, Step, Possible, Background, Foreground;
    InitInv(1);
    StartsAlone(q);
    var s1 := Step(Init(1), Play2d(q));
    StepInv(Init(1), Play2d(q));
    Suspends(s1, q.id, q.filePath, q.loop);
    var s2 := Step(s1, OnEnterBackground);
    StepInv(s1, OnEnterBackground);
    RunOfTwo(Init(1), Play2d(q), OnEnterBackground);
  }

  lemma StartsAlone(q: Request)
    requires q.starts && q.fileExists && q.id != INVALID_AUDIO_ID && q.profile.NoProfile?
    ensures Possible(Init(1), Play2d(q))
    ensures var s1 := Step(Init(1), Play2d(q));
      s1.infos == map[q.id := Info(q.filePath, None, Playing, q.loop)] && Possible(s1, OnEnterBackground)
  {
  }

  lemma Suspends(s: State, id: int, filePath: string, loop: bool)
    requires s.infos == map[id := Info(filePath, None, Playing, loop)] && Possible(s, OnEnterBackground)
    ensures var s2 := Step(s, OnEnterBackground);
      id in s2.infos && s2.infos[id].playState == Paused && id in s2.broken
      && id in Foreground(Background(s2)).infos && Foreground(Background(s2)).infos[id].playState == Playing
  {
  }

  lemma RunOfTwo(s: State, e: Event, f: Event)
    requires Possible(s, e) && Possible(Step(s, e), f)
    ensures Run(s, [e, f]) == Some(Step(Step(s, e), f))
  {
    hide Step, Possible;
    assert [e, f][1..] == [f] && [f][1..] == [];
    assert Run(Step(s, e), [f]) == Run(Step(Step(s, e), f), []);
  }

  // ---- the engine ----

  lemma TurnedNone(infos: map<int, Info>, which: set<int>, from: PlayState, to: PlayState)
    requires which !! infos.Keys
    ensures Turned(infos, which, from, to) == infos
  {
  }

  /** The helpers while ids that are members of `s` are taken out one by one. */
  lemma KeepHelpersOne(s: State, done: set<int>, id: int)
    requires Consistent(s) && id in s.infos && id !in done
    ensures var hs, h := KeepHelpers(s.helpers, done), s.infos[id].helper;
      if h.Some? then h.value in hs && Shortened(hs, h.value, id) == KeepHelpers(s.helpers, done + {id})
      else hs == KeepHelpers(s.helpers, done + {id})
  {
    hide Consistent, KeepHelpers, Shortened;
    DroppedConsistent(s, done);
    AllLinked(Dropped(s, done), id);
    HelpersOne(Dropped(s, done), id);
    KeepHelpersTwice(s.helpers, done, {id});
  }

  lemma KeepHelpersNone(helpers: map<Key, Helper>)
    ensures KeepHelpers(helpers, {}) == helpers
  {
    forall k | k in helpers ensures Keep(helpers[k].audioIDs, {}) == helpers[k].audioIDs {
      KeepAll(helpers[k].audioIDs, {});
    }
  }

  lemma SomeOf<T>(s: set<T>) returns (x: T)
    requires s != {}
    ensures x in s
  {
    x :| x in s;
  }

  class AudioEngine {
    const platformMax: nat
    var paths: map<string, seq<int>>
    var helpers: map<Key, Helper>
    var infos: map<int, Info>
    var maxInstances: nat
    var broken: set<int>
    var backend: bool
    var enabled: bool

    ghost function Now(): State
      reads this
    {
      State(platformMax, paths, helpers, infos, maxInstances, broken, backend, enabled)
    }

    constructor (platformMax: nat)
      requires platformMax > 0
      ensures Now() == Init(platformMax) && Inv(Now())
    {
      this.platformMax, maxInstances := platformMax, platformMax;
      paths, helpers, infos, broken, backend, enabled := map[], map[], map[], {}, false, true;
    }

    /** `remove`, which the backend may call at any time, even in the middle of `uncache`. */
    method Remove(id: int)
      requires Linked(Now(), id)
      modifies this`paths, this`helpers, this`infos
      ensures Now() == Unlinked(old(Now()), id)
    {
      hide Keep;
      if id in infos {
        var info := infos[id];
        if info.helper.Some? {
          helpers := Shortened(helpers, info.helper.value, id);
        }
        paths := paths[info.filePath := Keep(paths[info.filePath], {id})];
        infos := infos - {id};
      }
    }

    /** `stop`: whether or not the backend removes the sound itself makes no difference. */
    method Stop(id: int, backendRemoves: bool)
      requires Inv(Now())
      modifies this
      ensures Now() == Step(old(Now()), Event.Stop(id)) && Inv(Now())
      ensures id in old(infos) ==> old(backend)
    {
      StepInv(Now(), Event.Stop(id));
      UnlinkedIs(Now(), id);
      hide Consistent, Dropped;
      if id in infos {
        assert backend;
        if backendRemoves {
          Remove(id);
        }
        Remove(id);
      }
    }

    method StopAll()
      requires Inv(Now())
      modifies this
      ensures Now() == Step(old(Now()), Event.StopAll) && Inv(Now())
    {
      StepInv(Now(), Event.StopAll);
      hide Inv, KeepHelpers;
      if !backend {
        return;
      }
      ClearHelpers();
      paths, infos := map[], map[];
    }

    /** The loop of `stopAll`. */
    method ClearHelpers()
      requires Inv(Now())
      modifies this`helpers
      ensures helpers == KeepHelpers(old(helpers), infos.Keys)
    {
      hide Inv, KeepHelpers, Shortened;
      ghost var s := Now();
      KeepHelpersNone(helpers);
      var todo := infos.Keys;
      assert infos.Keys - todo == {};
      while todo != {}
        invariant todo <= infos.Keys && helpers == KeepHelpers(s.helpers, infos.Keys - todo)
        decreases |todo|
      {
        ghost var some := SomeOf(todo);
        var id :| id in todo;
        TakeHelper(s, todo, id);
        if infos[id].helper.Some? {
          helpers := Shortened(helpers, infos[id].helper.value, id);
        }
        todo := todo - {id};
      }
      assert infos.Keys - todo == infos.Keys;
    }

    /** One sound of `uncache`. The backend's `stop` may call `remove` itself, which then finds the lists as they are
        in the middle of the loop. */
    method UncacheOne(id: int, backendRemoves: bool, ghost s: State, ghost path: string, ghost done: set<int>)
      requires Inv(s) && id in s.infos && s.infos[id].filePath == path && id !in done
      requires MidUncache(s, Now(), path, done)
      modifies this`paths, this`helpers, this`infos
      ensures MidUncache(s, Now(), path, done + {id})
    {
      hide Inv, Consistent, KeepHelpers, Shortened, Keep;
      HasBackend(s, id);
      KeepHelpersOne(s, done, id);
      ghost var before := Now();
      assert backend;
      if backendRemoves {
        Remove(id);
      }
      if id in infos {
        if infos[id].helper.Some? {
          helpers := Shortened(helpers, infos[id].helper.value, id);
        }
        infos := infos - {id};
      }
      assert s.infos - done - {id} == s.infos - (done + {id});
      assert paths - {path} == before.paths - {path};
    }

    /** The loop of `uncache`, over a copy of the list. */
    method UncacheEach(path: string, copiedIDs: seq<int>, backendRemoves: set<int>)
      requires Inv(Now()) && path in paths && copiedIDs == paths[path]
      modifies this`paths, this`helpers, this`infos
      ensures MidUncache(old(Now()), Now(), path, Members(copiedIDs))
    {
      hide Inv, MidUncache, Members;
      ghost var s := Now();
      var i := 0;
      MidUncacheStart(s, path);
      assert copiedIDs[..0] == [];
      while i < |copiedIDs|
        invariant 0 <= i <= |copiedIDs| && MidUncache(s, Now(), path, Members(copiedIDs[..i]))
      {
        NextCopied(s, path, i);
        UncacheOne(copiedIDs[i], copiedIDs[i] in backendRemoves, s, path, Members(copiedIDs[..i]));
        i := i + 1;
      }
      assert copiedIDs[..i] == copiedIDs;
    }

    method Uncache(path: string, backendRemoves: set<int>)
      requires Inv(Now())
      modifies this
      ensures Now() == Step(old(Now()), Event.Uncache(path)) && Inv(Now())
    {
      StepInv(Now(), Event.Uncache(path));
      hide Inv, MidUncache, Members;
      if path in paths {
        UncacheEach(path, paths[path], backendRemoves);
        MidUncacheEnd(old(Now()), Now(), path);
        paths := paths - {path};
      }
    }

    /** `sAudioPathProfileHelperMap[profile->name]`, and the copy of the profile. */
    method EnsureProfile(profile: Profile)
      modifies this`helpers
      ensures Now() == Profiled(old(Now()), Given(profile))
    {
      var k := Named(profile.name);
      if k !in helpers {
        helpers := helpers[k := Helper(profile, [], None)];
      }
      helpers := helpers[k := helpers[k].(profile := profile)];
    }

    /** The bookkeeping for a sound that the backend has started. */
    method Enter(q: Request, k: Option<Key>)
      requires k.Some? ==> k.value in helpers
      modifies this`paths, this`infos, this`helpers
      ensures Now() == Started(old(Now()), q, k)
    {
      var ids := if q.filePath in paths then paths[q.filePath] else [];
      paths := paths[q.filePath := ids + [q.id]];
      if k.Some? {
        var h := helpers[k.value];
        helpers := helpers[k.value := h.(lastPlayTime := Some(q.now), audioIDs := h.audioIDs + [q.id])];
      }
      infos := infos[q.id := Info(q.filePath, k, Playing, q.loop)];
    }

    /** The second half of `play2d`. */
    method Admit(q: Request) returns (ret: int)
      requires Legal(Now(), q)
      modifies this`paths, this`infos, this`helpers
      ensures (Now(), ret) == Admitted(old(Now()), q)
    {
      hide Started, Profiled, Full, TooSoon;
      ret := INVALID_AUDIO_ID;
      ghost var s := Now();
      var k := HelperKey(helpers, q.profile);
      if q.profile.Given? {
        EnsureProfile(q.profile.profile);
      }
      ProfiledIs(s, q.profile);
      if |infos| >= maxInstances {
        return;
      }
      if k.Some? && (Full(helpers[k.value]) || TooSoon(helpers[k.value], q.now)) {
        return;
      }
      ret := q.id;
      if ret != INVALID_AUDIO_ID {
        Enter(q, k);
      }
    }

    method Play2d(q: Request) returns (ret: int)
      requires Inv(Now()) && Legal(Now(), q)
      modifies this
      ensures (Now(), ret) == Played(old(Now()), q) && Inv(Now())
    {
      PlayedInv(Now(), q);
      hide Inv, Admitted;
      if !enabled {
        return INVALID_AUDIO_ID;
      }
      if !backend {
        if !q.starts {
          return INVALID_AUDIO_ID;
        }
        backend := true;
      }
      if !q.fileExists {
        return INVALID_AUDIO_ID;
      }
      ret := Admit(q);
    }

    method SetEnabled(on: bool)
      requires Inv(Now())
      modifies this
      ensures Now() == Step(old(Now()), Event.SetEnabled(on)) && Inv(Now())
    {
      StepInv(Now(), Event.SetEnabled(on));
      SameIndexes(Now(), Now().(enabled := on));
      if enabled != on {
        enabled := on;
        hide Consistent, StoppedAll;
        if !on {
          StopAll();
        }
      }
    }

    method SetMaxAudioInstance(max: int) returns (accepted: bool)
      requires Inv(Now())
      modifies this
      ensures Now() == Step(old(Now()), Event.SetMaxAudioInstance(max)) && Inv(Now())
      ensures accepted <==> 0 < max <= platformMax
    {
      StepInv(Now(), Event.SetMaxAudioInstance(max));
      hide Inv;
      if max > 0 && max <= platformMax {
        maxInstances := max;
        return true;
      }
      return false;
    }

    method End()
      requires Inv(Now())
      modifies this
      ensures Now() == Step(old(Now()), Event.End) && Inv(Now())
    {
      StepInv(Now(), Event.End);
      hide Inv, StoppedAll;
      StopAll();
      backend := false;
      helpers := helpers - {Default};
    }

    method GetDefaultProfile()
      requires Inv(Now())
      modifies this
      ensures Now() == Step(old(Now()), Event.GetDefaultProfile) && Inv(Now()) && Default in helpers
    {
      StepInv(Now(), Event.GetDefaultProfile);
      hide Inv;
      if Default !in helpers {
        helpers := helpers[Default := Helper(Profile("", 0, 0.0), [], None)];
      }
    }

    method Pause(id: int)
      requires Inv(Now())
      modifies this
      ensures Now() == Step(old(Now()), Event.Pause(id)) && Inv(Now())
    {
      StepInv(Now(), Event.Pause(id));
      hide Inv;
      if id in infos && infos[id].playState == Playing {
        infos := infos[id := infos[id].(playState := Paused)];
      }
    }

    method Resume(id: int)
      requires Inv(Now())
      modifies this
      ensures Now() == Step(old(Now()), Event.Resume(id)) && Inv(Now())
    {
      StepInv(Now(), Event.Resume(id));
      hide Inv;
      if id in infos && infos[id].playState == Paused {
        infos := infos[id := infos[id].(playState := Playing)];
      }
    }

    /** The loop of `pauseAll`, `resumeAll`, `onEnterBackground` and `onEnterForeground`. */
    method TurnEach(ids: set<int>, from: PlayState, to: PlayState) returns (turned: set<int>)
      modifies this`infos
      ensures infos == Turned(old(infos), ids, from, to)
      ensures turned == InState(old(infos), from) * ids
    {
      ghost var before := infos;
      var todo := ids;
      turned := {};
      assert ids - todo == {};
      TurnedNone(before, {}, from, to);
      hide Turned, InState;
      while todo != {}
        invariant todo <= ids && infos == Turned(before, ids - todo, from, to)
        invariant turned == InState(before, from) * (ids - todo)
        decreases |todo|
      {
        ghost var some := SomeOf(todo);
        var id :| id in todo;
        TurnNext(before, ids, todo, id, from, to);
        if id in infos && infos[id].playState == from {
          infos := infos[id := infos[id].(playState := to)];
          turned := turned + {id};
        }
        todo := todo - {id};
      }
      assert ids - todo == ids;
    }

    method PauseAll()
      requires Inv(Now())
      modifies this
      ensures Now() == Step(old(Now()), Event.PauseAll) && Inv(Now())
    {
      StepInv(Now(), Event.PauseAll);
      hide Inv, Turned;
      var _ := TurnEach(infos.Keys, Playing, Paused);
    }

    method ResumeAll()
      requires Inv(Now())
      modifies this
      ensures Now() == Step(old(Now()), Event.ResumeAll) && Inv(Now())
    {
      StepInv(Now(), Event.ResumeAll);
      hide Inv, Turned;
      var _ := TurnEach(infos.Keys, Paused, Playing);
    }

    method OnEnterBackground()
      requires Inv(Now())
      modifies this
      ensures Now() == Step(old(Now()), Event.OnEnterBackground) && Inv(Now())
    {
      StepInv(Now(), Event.OnEnterBackground);
      hide Inv, Turned;
      assert InState(infos, Playing) * infos.Keys == InState(infos, Playing);
      var turned := TurnEach(infos.Keys, Playing, Paused);
      broken := broken + turned;
    }

    method OnEnterForeground()
      requires Inv(Now())
      modifies this
      ensures Now() == Step(old(Now()), Event.OnEnterForeground) && Inv(Now())
    {
      StepInv(Now(), Event.OnEnterForeground);
      hide Inv, Turned;
      var _ := TurnEach(broken, Paused, Playing);
      broken := {};
    }
  }

  lemma TurnNext(infos: map<int, Info>, ids: set<int>, todo: set<int>, id: int, from: PlayState, to: PlayState)
    requires id in todo && todo <= ids
    ensures var was, now := Turned(infos, ids - todo, from, to), Turned(infos, ids - (todo - {id}), from, to);
      if id in was && was[id].playState == from
      then now == was[id := was[id].(playState := to)] && id in InState(infos, from)
      else now == was && id !in InState(infos, from)
  {
    var done := ids - todo;
    assert ids - (todo - {id}) == done + {id};
  }

  lemma ProfiledIs(s: State, profile: ProfileArgument)
    ensures !profile.Given? ==> Profiled(s, profile) == s
    ensures profile.Given? ==> Named(profile.profile.name) in Profiled(s, profile).helpers
    ensures Profiled(s, profile) == s.(helpers := Profiled(s, profile).helpers)
    ensures s.helpers.Keys <= Profiled(s, profile).helpers.Keys
  {
  }

  /** `t` is `s` without the sounds `done`, but for the list of `path`. */
  predicate MidUncache(s: State, t: State, path: string, done: set<int>) {
    t == s.(paths := t.paths, helpers := KeepHelpers(s.helpers, done), infos := s.infos - done)
    && path in t.paths && t.paths - {path} == s.paths - {path}
  }

  lemma MidUncacheStart(s: State, path: string)
    requires path in s.paths
    ensures MidUncache(s, s, path, {}) && Members([]) == {}
  {
    KeepHelpersNone(s.helpers);
    assert s.infos - {} == s.infos;
  }

  lemma MidUncacheEnd(s: State, t: State, path: string)
    requires path in s.paths && MidUncache(s, t, path, Members(s.paths[path]))
    ensures t.(paths := t.paths - {path}) == Uncached(s, path) && path in t.paths
  {
    hide KeepHelpers;
  }

  lemma HasBackend(s: State, id: int)
    requires Inv(s) && id in s.infos
    ensures s.backend && Consistent(s)
  {
    hide Consistent;
  }

  lemma NextCopied(s: State, path: string, i: nat)
    requires Inv(s) && path in s.paths && i < |s.paths[path]|
    ensures var ids := s.paths[path];
      ids[i] in s.infos && s.infos[ids[i]].filePath == path && ids[i] !in Members(ids[..i])
      && Members(ids[..i + 1]) == Members(ids[..i]) + {ids[i]}
  {
    var ids := s.paths[path];
    hide Lists, Members;
    assert Lists(ids, PathOf(s.infos), path);
    hide Inv, Consistent;
    ListedOne(ids, PathOf(s.infos), path, i);
    NoRepeats(ids, PathOf(s.infos), path, i);
    MembersSnoc(ids, i);
  }

  lemma ListedOne<K>(ids: seq<int>, members: map<int, K>, k: K, i: nat)
    requires Lists(ids, members, k) && i < |ids|
    ensures ids[i] in members && members[ids[i]] == k
  {
    var id := ids[i];
    assert id in ids;
    assert multiset(ids)[id] > 0;
  }

  lemma MembersSnoc(ids: seq<int>, i: nat)
    requires i < |ids|
    ensures Members(ids[..i + 1]) == Members(ids[..i]) + {ids[i]}
    ensures ids[i] in Members(ids[..i]) <==> ids[i] in ids[..i]
  {
    assert ids[..i + 1] == ids[..i] + [ids[i]];
  }

  lemma NoRepeats<K>(ids: seq<int>, members: map<int, K>, k: K, i: nat)
    requires Lists(ids, members, k) && i < |ids|
    ensures ids[i] !in ids[..i]
  {
    var id := ids[i];
    assert ids == ids[..i] + [id] + ids[i + 1..];
    assert multiset(ids) == multiset(ids[..i]) + multiset{id} + multiset(ids[i + 1..]);
    assert multiset(ids)[id] <= 1;
  }

  lemma TakeHelper(s: State, todo: set<int>, id: int)
    requires Inv(s) && id in todo && todo <= s.infos.Keys
    ensures var hs, h := KeepHelpers(s.helpers, s.infos.Keys - todo), s.infos[id].helper;
      if h.Some? then h.value in hs && Shortened(hs, h.value, id) == KeepHelpers(s.helpers, s.infos.Keys - (todo - {id}))
      else hs == KeepHelpers(s.helpers, s.infos.Keys - (todo - {id}))
  {
    hide KeepHelpers, Shortened, Consistent;
    KeepHelpersOne(s, s.infos.Keys - todo, id);
    assert s.infos.Keys - todo + {id} == s.infos.Keys - (todo - {id});
  }
}
