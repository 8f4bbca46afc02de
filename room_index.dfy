/** The room directory shared by both copies of `RoomList`: the alias and
    prefix indexes that the constructor builds, the lookup that `get_room`
    performs, and the theorems that say what they mean in terms of the rooms
    handed to the constructor. */
module RoomIndex {
  import opened Wrappers
  import opened Sequences

  /** A room object as the chat SDK hands it over.  The directory never
      changes a room, and two rooms are the same room exactly when they are
      the same object, as with Python objects that define no `__eq__`. */
  class Room {
    const roomId: string
    const canonicalAlias: Option<string>
    const aliases: seq<string>

    constructor (roomId: string, canonicalAlias: Option<string>, aliases: seq<string>)
      ensures this.roomId == roomId
      ensures this.canonicalAlias == canonicalAlias
      ensures this.aliases == aliases
    {
      this.roomId := roomId;
      this.canonicalAlias := canonicalAlias;
      this.aliases := aliases;
    }
  }

  /** What the prefix index stores: one room, or a list of rooms once a second
      distinct room claims the same prefix. */
  datatype PrefixEntry = One(room: Room) | Several(rooms: seq<Room>)

  /** The aliases a room is scanned for, in scan order: the canonical alias
      (possibly `None`) followed by the listed aliases. */
  function Chain(r: Room): (cs: seq<Option<string>>)
    ensures |cs| == |r.aliases| + 1 && cs[0] == r.canonicalAlias
    ensures forall k :: 0 <= k < |r.aliases| ==> cs[k + 1] == Some(r.aliases[k])
  {
    [r.canonicalAlias] + seq(|r.aliases|, k requires 0 <= k < |r.aliases| => Some(r.aliases[k]))
  }

  /** `a` is one of the room's non-`None` aliases, canonical or listed. */
  predicate HasAlias(r: Room, a: string) {
    Some(a) in Chain(r)
  }

  /** Length of the longest prefix of `s` that holds no `:`. */
  function ColonIndex(s: string): (k: nat)
    ensures k <= |s|
    ensures forall i :: 0 <= i < k ==> s[i] != ':'
    ensures k == |s| || s[k] == ':'
  {
    if |s| == 0 || s[0] == ':' then 0 else 1 + ColonIndex(s[1..])
  }

  /** The match of `^(#[^:]*)` against an alias: `#` and everything before the
      first `:`, or nothing when the alias does not start with `#`. */
  function AliasPrefix(alias: string): (p: Option<string>)
    ensures p.Some? <==> |alias| > 0 && alias[0] == '#'
    ensures p.Some? ==> 1 <= |p.value| <= |alias| && p.value == alias[..|p.value|]
    ensures p.Some? ==> ':' !in p.value
    ensures p.Some? ==> |p.value| == |alias| || alias[|p.value|] == ':'
  {
    if |alias| > 0 && alias[0] == '#' then Some(alias[..ColonIndex(alias)]) else None
  }

  // ---------------------------------------------------------------------
  // The indexes, as the constructor's loops build them (rooms in iteration
  // order, each room's aliases in scan order).
  // ---------------------------------------------------------------------

  /** The alias index after storing room `r` under every non-`None` alias of
      `cs`, in order, starting from `m`. */
  function AddAliases(m: map<string, Room>, r: Room, cs: seq<Option<string>>): map<string, Room>
    decreases |cs|
  {
    if cs == [] then m
    else
      var m' := AddAliases(m, r, cs[..|cs| - 1]);
      match cs[|cs| - 1]
      case None => m'
      case Some(a) => m'[a := r]
  }

  /** `roomsbyalias` after the constructor has processed `rooms`. */
  function AliasIndex(rooms: seq<Room>): map<string, Room>
    decreases |rooms|
  {
    if rooms == [] then map[]
    else
      var r := rooms[|rooms| - 1];
      AddAliases(AliasIndex(rooms[..|rooms| - 1]), r, Chain(r))
  }

  /** One step of the prefix index: room `r` claims the prefix of `alias`. */
  function AddPrefix(m: map<string, PrefixEntry>, r: Room, alias: string): (m': map<string, PrefixEntry>)
    ensures AliasPrefix(alias).None? ==> m' == m
    ensures AliasPrefix(alias).Some? ==> m'.Keys == m.Keys + {AliasPrefix(alias).value}
    ensures AliasPrefix(alias).Some? ==>
              var e := m'[AliasPrefix(alias).value];
              e == One(r) || (e.Several? && r in e.rooms)
  {
    match AliasPrefix(alias)
    case None => m
    case Some(p) =>
      if p !in m then m[p := One(r)]
      else match m[p]
        case Several(rs) => if r in rs then m else m[p := Several(rs + [r])]
        case One(x) => if x != r then m[p := Several([x, r])] else m
  }

  /** The prefix index after room `r` has claimed the prefixes of `cs`. */
  function AddPrefixes(m: map<string, PrefixEntry>, r: Room, cs: seq<Option<string>>): map<string, PrefixEntry>
    decreases |cs|
  {
    if cs == [] then m
    else
      var m' := AddPrefixes(m, r, cs[..|cs| - 1]);
      match cs[|cs| - 1]
      case None => m'
      case Some(a) => AddPrefix(m', r, a)
  }

  /** `roomsbyprefix` after the constructor has processed `rooms`. */
  function PrefixIndex(rooms: seq<Room>): map<string, PrefixEntry>
    decreases |rooms|
  {
    if rooms == [] then map[]
    else
      var r := rooms[|rooms| - 1];
      AddPrefixes(PrefixIndex(rooms[..|rooms| - 1]), r, Chain(r))
  }

  /** `roomsbyid`: the input dictionary as a map. */
  function IdMap(roomsdict: seq<(string, Room)>): map<string, Room>
    decreases |roomsdict|
  {
    if roomsdict == [] then map[]
    else
      var kv := roomsdict[|roomsdict| - 1];
      IdMap(roomsdict[..|roomsdict| - 1])[kv.0 := kv.1]
  }

  /** The dictionary's values, in iteration order. */
  function Values(roomsdict: seq<(string, Room)>): (rs: seq<Room>)
    ensures |rs| == |roomsdict|
    ensures forall k :: 0 <= k < |rs| ==> rs[k] == roomsdict[k].1
  {
    seq(|roomsdict|, k requires 0 <= k < |roomsdict| => roomsdict[k].1)
  }

  /** A Python dictionary never holds a key twice. */
  predicate DistinctKeys(roomsdict: seq<(string, Room)>) {
    forall i, j :: 0 <= i < j < |roomsdict| ==> roomsdict[i].0 != roomsdict[j].0
  }

  /** `roomsbyid` holds exactly the dictionary's keys, each with its own
      room. */
  lemma {:induction false} IdMapMeaning(roomsdict: seq<(string, Room)>)
    requires DistinctKeys(roomsdict)
    ensures forall key :: key in IdMap(roomsdict) <==> exists i :: 0 <= i < |roomsdict| && roomsdict[i].0 == key
    ensures forall i :: 0 <= i < |roomsdict| ==> IdMap(roomsdict)[roomsdict[i].0] == roomsdict[i].1
    decreases |roomsdict|
  {
    if roomsdict != [] {
      var n := |roomsdict| - 1;
      var init := roomsdict[..n];
      IdMapMeaning(init);
      forall key | key in IdMap(roomsdict)
        ensures exists i :: 0 <= i < |roomsdict| && roomsdict[i].0 == key
      {
        if key != roomsdict[n].0 {
          var i :| 0 <= i < |init| && init[i].0 == key;
          assert roomsdict[i] == init[i];
        }
      }
      forall i | 0 <= i < n
        ensures IdMap(roomsdict)[roomsdict[i].0] == roomsdict[i].1
      {
        assert init[i] == roomsdict[i];
      }
    }
  }

  /** The nested loops of `RoomList.__init__`: for every room and every one of
      its non-`None` aliases, store the room under the alias (a later room
      overwrites), then let the room claim the alias's prefix. */
  method IndexRooms(rooms: seq<Room>) returns (byAlias: map<string, Room>, byPrefix: map<string, PrefixEntry>)
    ensures byAlias == AliasIndex(rooms)
    ensures byPrefix == PrefixIndex(rooms)
  {
    byAlias, byPrefix := map[], map[];
    for i := 0 to |rooms|
      invariant byAlias == AliasIndex(rooms[..i])
      invariant byPrefix == PrefixIndex(rooms[..i])
    {
      var r := rooms[i];
      var cs := Chain(r);
      assert rooms[..i + 1][..i] == rooms[..i];
      ghost var startAlias, startPrefix := byAlias, byPrefix;
      for j := 0 to |cs|
        invariant byAlias == AddAliases(startAlias, r, cs[..j])
        invariant byPrefix == AddPrefixes(startPrefix, r, cs[..j])
      {
        assert cs[..j + 1][..j] == cs[..j];
        var alias := cs[j];
        if alias.None? {
          continue;
        }
        var a := alias.value;
        byAlias := byAlias[a := r];
        var m := AliasPrefix(a);
        if m.None? {
          continue;
        }
        var prefix := m.value;
        if prefix !in byPrefix {
          byPrefix := byPrefix[prefix := One(r)];
        } else {
          var item := byPrefix[prefix];
          if item.Several? {
            if r !in item.rooms {
              byPrefix := byPrefix[prefix := Several(item.rooms + [r])];
            }
          } else if item.room != r {
            byPrefix := byPrefix[prefix := Several([item.room, r])];
          }
        }
      }
      assert cs[..|cs|] == cs;
    }
    assert rooms[..|rooms|] == rooms;
  }

  /** `get_room` over the three indexes: by id, then by alias, then by
      prefix; a prefix list of more than one room is no match. */
  function Resolve(byId: map<string, Room>, byAlias: map<string, Room>,
                   byPrefix: map<string, PrefixEntry>, key: string): (r: Option<Room>)
    ensures key in byId ==> r == Some(byId[key])
    ensures key !in byId && key in byAlias ==> r == Some(byAlias[key])
    ensures key !in byId && key !in byAlias && key in byPrefix && byPrefix[key].One? ==>
              r == Some(byPrefix[key].room)
    ensures key !in byId && key !in byAlias && key in byPrefix && byPrefix[key].Several? ==>
              (r.Some? <==> |byPrefix[key].rooms| == 1) && (r.Some? ==> r == Some(byPrefix[key].rooms[0]))
    ensures r.Some? ==> key in byId || key in byAlias || key in byPrefix
  {
    if key in byId then Some(byId[key])
    else if key in byAlias then Some(byAlias[key])
    else if key in byPrefix then
      match byPrefix[key]
      case One(x) => Some(x)
      case Several(rs) => if |rs| == 1 then Some(rs[0]) else None
    else None
  }

  // ---------------------------------------------------------------------
  // What the indexes mean.
  // ---------------------------------------------------------------------

  /** Some room among `rooms` has `key` as an alias. */
  ghost predicate IsAliasOf(rooms: seq<Room>, key: string) {
    exists i :: 0 <= i < |rooms| && HasAlias(rooms[i], key)
  }

  /** `rooms[i]` is the last room (in iteration order) with alias `key`. */
  ghost predicate LastWithAlias(rooms: seq<Room>, key: string, i: int) {
    && 0 <= i < |rooms|
    && HasAlias(rooms[i], key)
    && forall j :: i < j < |rooms| ==> !HasAlias(rooms[j], key)
  }

  /** Room `r` has an alias whose prefix is `p`. */
  ghost predicate OwnsPrefix(r: Room, p: string) {
    exists a :: HasAlias(r, a) && AliasPrefix(a) == Some(p)
  }

  /** The rooms among `rooms` that own prefix `p`. */
  ghost function Owners(rooms: seq<Room>, p: string): set<Room> {
    set r | r in rooms && OwnsPrefix(r, p)
  }

  /** An index entry agrees with the set of rooms owning its prefix: a single
      room when exactly one room owns it, otherwise a duplicate-free list of
      all of them, of length at least two. */
  ghost predicate EntryFits(e: PrefixEntry, owners: set<Room>) {
    match e
    case One(x) => owners == {x}
    case Several(rs) => |rs| >= 2 && Distinct(rs) && Elements(rs) == owners
  }

  lemma {:induction false} AddAliasesMeaning(m: map<string, Room>, r: Room, cs: seq<Option<string>>, a: string)
    ensures a in AddAliases(m, r, cs) <==> a in m || Some(a) in cs
    ensures Some(a) in cs ==> a in AddAliases(m, r, cs) && AddAliases(m, r, cs)[a] == r
    ensures a in m && Some(a) !in cs ==> a in AddAliases(m, r, cs) && AddAliases(m, r, cs)[a] == m[a]
    decreases |cs|
  {
    if cs != [] {
      var init := cs[..|cs| - 1];
      AddAliasesMeaning(m, r, init, a);
      assert cs == init + [cs[|cs| - 1]];
    }
  }

  /** One room's worth of the alias index. */
  lemma AliasIndexStep(rooms: seq<Room>, key: string)
    requires rooms != []
    ensures var init, r := rooms[..|rooms| - 1], rooms[|rooms| - 1];
      && (key in AliasIndex(rooms) <==> key in AliasIndex(init) || HasAlias(r, key))
      && (HasAlias(r, key) ==> key in AliasIndex(rooms) && AliasIndex(rooms)[key] == r)
      && (!HasAlias(r, key) && key in AliasIndex(init) ==>
            key in AliasIndex(rooms) && AliasIndex(rooms)[key] == AliasIndex(init)[key])
  {
    var r := rooms[|rooms| - 1];
    AddAliasesMeaning(AliasIndex(rooms[..|rooms| - 1]), r, Chain(r), key);
  }

  /** The alias index holds exactly the non-`None` aliases of all rooms. */
  lemma {:induction false} AliasIndexKeys(rooms: seq<Room>, key: string)
    ensures key in AliasIndex(rooms) <==> IsAliasOf(rooms, key)
    decreases |rooms|
  {
    if rooms != [] {
      var n := |rooms| - 1;
      var init := rooms[..n];
      AliasIndexKeys(init, key);
      AliasIndexStep(rooms, key);
      var has := r => HasAlias(r, key);
      ExistsSplit(rooms, init, has);
      assert IsAliasOf(rooms, key) <==> exists k :: 0 <= k < |rooms| && has(rooms[k]);
      assert IsAliasOf(init, key) <==> exists k :: 0 <= k < n && has(init[k]);
    }
  }

  /** A later room overwrites an earlier one: an alias maps to the last room
      processed that has it. */
  lemma {:induction false} AliasIndexLast(rooms: seq<Room>, key: string, i: int)
    requires LastWithAlias(rooms, key, i)
    ensures key in AliasIndex(rooms) && AliasIndex(rooms)[key] == rooms[i]
    decreases |rooms|
  {
    var n := |rooms| - 1;
    AliasIndexStep(rooms, key);
    if i < n {
      assert LastWithAlias(rooms[..n], key, i);
      AliasIndexLast(rooms[..n], key, i);
    }
  }

  /** Among the rooms with a given alias there is a last one. */
  lemma LastWithAliasExists(rooms: seq<Room>, key: string)
    requires IsAliasOf(rooms, key)
    ensures exists i :: LastWithAlias(rooms, key, i)
  {
    var has := r => HasAlias(r, key);
    assert exists k :: 0 <= k < |rooms| && has(rooms[k]);
    var i := LastSatisfying(rooms, has);
    assert LastWithAlias(rooms, key, i);
  }

  /** The prefixes claimed so far: pairs (prefix, room). */
  ghost function ClaimedBy(claims: set<(string, Room)>, p: string): set<Room> {
    set c | c in claims && c.0 == p :: c.1
  }

  /** An index agrees with a set of claims. */
  ghost predicate Fits(m: map<string, PrefixEntry>, claims: set<(string, Room)>) {
    && (forall c :: c in claims ==> c.0 in m)
    && (forall p :: p in m ==> EntryFits(m[p], ClaimedBy(claims, p)))
  }

  /** The claims one alias of room `r` makes. */
  function AliasClaims(r: Room, alias: string): set<(string, Room)> {
    match AliasPrefix(alias)
    case None => {}
    case Some(p) => {(p, r)}
  }

  /** The claims the aliases `cs` of room `r` make. */
  function ChainClaims(r: Room, cs: seq<Option<string>>): set<(string, Room)>
    decreases |cs|
  {
    if cs == [] then {}
    else
      ChainClaims(r, cs[..|cs| - 1]) +
      match cs[|cs| - 1]
      case None => {}
      case Some(a) => AliasClaims(r, a)
  }

  /** The claims all of `rooms` make. */
  function AllClaims(rooms: seq<Room>): set<(string, Room)>
    decreases |rooms|
  {
    if rooms == [] then {}
    else
      var r := rooms[|rooms| - 1];
      AllClaims(rooms[..|rooms| - 1]) + ChainClaims(r, Chain(r))
  }

  /** Setting the entry of `p` to one that fits its owners once `r` joins
      them keeps the index in agreement with the claims plus `(p, r)`. */
  lemma FitsUpdate(m: map<string, PrefixEntry>, claims: set<(string, Room)>, p: string, r: Room, e: PrefixEntry)
    requires Fits(m, claims)
    requires EntryFits(e, ClaimedBy(claims, p) + {r})
    ensures Fits(m[p := e], claims + {(p, r)})
  {
    var claims' := claims + {(p, r)};
    forall q | q != p
      ensures ClaimedBy(claims', q) == ClaimedBy(claims, q)
    {
    }
    assert ClaimedBy(claims', p) == ClaimedBy(claims, p) + {r};
  }

  /** One insertion keeps the index in agreement with the claims. */
  lemma AddPrefixFits(m: map<string, PrefixEntry>, claims: set<(string, Room)>, r: Room, alias: string)
    requires Fits(m, claims)
    ensures Fits(AddPrefix(m, r, alias), claims + AliasClaims(r, alias))
  {
    match AliasPrefix(alias)
    case None =>
    case Some(p) =>
      assert claims + AliasClaims(r, alias) == claims + {(p, r)};
      if p !in m {
        assert ClaimedBy(claims, p) == {} by {
          forall c | c in claims ensures c.0 != p { }
        }
        FitsUpdate(m, claims, p, r, One(r));
      } else {
        match m[p]
        case Several(rs) =>
          if r !in rs {
            var rs' := rs + [r];
            assert Elements(rs') == Elements(rs) + {r};
            assert Distinct(rs');
            FitsUpdate(m, claims, p, r, Several(rs'));
          } else {
            assert m[p := m[p]] == m;
            FitsUpdate(m, claims, p, r, m[p]);
          }
        case One(x) =>
          if x != r {
            assert Elements([x, r]) == {x, r};
            FitsUpdate(m, claims, p, r, Several([x, r]));
          } else {
            assert m[p := m[p]] == m;
            FitsUpdate(m, claims, p, r, m[p]);
          }
      }
  }

  lemma {:induction false} AddPrefixesFits(m: map<string, PrefixEntry>, claims: set<(string, Room)>, r: Room, cs: seq<Option<string>>)
    requires Fits(m, claims)
    ensures Fits(AddPrefixes(m, r, cs), claims + ChainClaims(r, cs))
    decreases |cs|
  {
    if cs != [] {
      var init := cs[..|cs| - 1];
      AddPrefixesFits(m, claims, r, init);
      match cs[|cs| - 1]
      case None =>
        assert claims + ChainClaims(r, cs) == claims + ChainClaims(r, init);
      case Some(a) =>
        AddPrefixFits(AddPrefixes(m, r, init), claims + ChainClaims(r, init), r, a);
        assert claims + ChainClaims(r, cs) == claims + ChainClaims(r, init) + AliasClaims(r, a);
    }
  }

  lemma {:induction false} PrefixIndexFits(rooms: seq<Room>)
    ensures Fits(PrefixIndex(rooms), AllClaims(rooms))
    decreases |rooms|
  {
    if rooms != [] {
      var r := rooms[|rooms| - 1];
      PrefixIndexFits(rooms[..|rooms| - 1]);
      AddPrefixesFits(PrefixIndex(rooms[..|rooms| - 1]), AllClaims(rooms[..|rooms| - 1]), r, Chain(r));
    }
  }

  lemma {:induction false} ChainClaimsMeaning(r: Room, cs: seq<Option<string>>, p: string, x: Room)
    ensures (p, x) in ChainClaims(r, cs) <==> x == r && exists a :: Some(a) in cs && AliasPrefix(a) == Some(p)
    decreases |cs|
  {
    if cs != [] {
      var init := cs[..|cs| - 1];
      ChainClaimsMeaning(r, init, p, x);
      assert cs == init + [cs[|cs| - 1]];
      if x == r && (exists a :: Some(a) in cs && AliasPrefix(a) == Some(p)) {
        var a :| Some(a) in cs && AliasPrefix(a) == Some(p);
        if Some(a) !in init {
          assert cs[|cs| - 1] == Some(a);
        }
      }
    }
  }

  lemma {:induction false} AllClaimsMeaning(rooms: seq<Room>, p: string)
    ensures ClaimedBy(AllClaims(rooms), p) == Owners(rooms, p)
    decreases |rooms|
  {
    if rooms != [] {
      var n := |rooms| - 1;
      var init, r := rooms[..n], rooms[n];
      AllClaimsMeaning(init, p);
      assert rooms == init + [r];
      forall x
        ensures x in ClaimedBy(AllClaims(rooms), p) <==> x in Owners(init, p) || (x == r && OwnsPrefix(r, p))
      {
        ChainClaimsMeaning(r, Chain(r), p, x);
        assert (p, x) in AllClaims(rooms) <==> (p, x) in AllClaims(init) || (p, x) in ChainClaims(r, Chain(r));
        assert x in ClaimedBy(AllClaims(init), p) <==> (p, x) in AllClaims(init);
        assert x in ClaimedBy(AllClaims(rooms), p) <==> (p, x) in AllClaims(rooms);
      }
      forall x
        ensures x in Owners(rooms, p) <==> x in Owners(init, p) || (x == r && OwnsPrefix(r, p))
      {
        assert x in rooms <==> x in init || x == r;
      }
      assert forall x :: x in ClaimedBy(AllClaims(rooms), p) <==> x in Owners(rooms, p);
      assert ClaimedBy(AllClaims(rooms), p) == Owners(rooms, p);
    } else {
      assert ClaimedBy(AllClaims(rooms), p) == {};
    }
  }

  /** The prefix index holds exactly the prefixes some room owns, and each
      entry is that room when it is the only owner, or the list of all owners,
      without repetition, when there are two or more. */
  lemma PrefixIndexMeaning(rooms: seq<Room>, p: string)
    ensures p in PrefixIndex(rooms) <==> Owners(rooms, p) != {}
    ensures p in PrefixIndex(rooms) ==> EntryFits(PrefixIndex(rooms)[p], Owners(rooms, p))
  {
    PrefixIndexFits(rooms);
    AllClaimsMeaning(rooms, p);
    if Owners(rooms, p) != {} {
      var x :| x in ClaimedBy(AllClaims(rooms), p);
      var c :| c in AllClaims(rooms) && c.0 == p && c.1 == x;
    }
    if p in PrefixIndex(rooms) {
      match PrefixIndex(rooms)[p]
      case One(x) =>
      case Several(rs) => assert rs[0] in Elements(rs);
    }
  }

  /** What `get_room` returns for directory built from `roomsdict`: the room
      stored under an id; otherwise the last room processed with that alias;
      otherwise, for a prefix, the room when it is the only owner and
      nothing when no room or several rooms own it. */
  ghost predicate Resolution(roomsdict: seq<(string, Room)>, key: string, r: Option<Room>) {
    var rooms := Values(roomsdict);
    && (key in IdMap(roomsdict) ==> r == Some(IdMap(roomsdict)[key]))
    && (key !in IdMap(roomsdict) && IsAliasOf(rooms, key) ==>
          exists i :: LastWithAlias(rooms, key, i) && r == Some(rooms[i]))
    && (key !in IdMap(roomsdict) && !IsAliasOf(rooms, key) ==>
          (r.Some? <==> |Owners(rooms, key)| == 1) && (r.Some? ==> Owners(rooms, key) == {r.value}))
  }

  /** `get_room` on the freshly built indexes means `Resolution`. */
  lemma ResolveMeaning(roomsdict: seq<(string, Room)>, key: string)
    ensures Resolution(roomsdict, key,
                       Resolve(IdMap(roomsdict), AliasIndex(Values(roomsdict)), PrefixIndex(Values(roomsdict)), key))
  {
    var rooms := Values(roomsdict);
    AliasIndexKeys(rooms, key);
    if key !in IdMap(roomsdict) && IsAliasOf(rooms, key) {
      LastWithAliasExists(rooms, key);
      var i :| LastWithAlias(rooms, key, i);
      AliasIndexLast(rooms, key, i);
    }
    PrefixIndexMeaning(rooms, key);
    var owners := Owners(rooms, key);
    if key in PrefixIndex(rooms) {
      match PrefixIndex(rooms)[key]
      case One(x) =>
      case Several(rs) =>
        assert rs[0] in owners && rs[1] in owners && rs[0] != rs[1];
        assert {rs[0], rs[1]} <= owners;
        assert |{rs[0], rs[1]}| == 2;
        SubsetCard({rs[0], rs[1]}, owners);
    } else {
      assert owners == {};
    }
  }

  lemma SubsetCard<T>(a: set<T>, b: set<T>)
    requires a <= b
    ensures |a| <= |b|
  {
    assert b == a + (b - a);
  }
}
