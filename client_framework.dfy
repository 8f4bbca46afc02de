/** The older copy of the client framework (`client_framework.py`): the same
    room directory with a simpler handle lookup, the account classifier
    over a mutable account record, and a retry delay whose fields exist only
    once the read-eval-print loop has set them. */
module ClientFramework {
  import opened Wrappers
  import opened RoomIndex
  import MatrixClientCore

  // ---------------------------------------------------------------------
  // AccountInfo
  // ---------------------------------------------------------------------

  /** The account record.  Its attributes start as `None` and are filled in
      from a file, from the keyboard or after a password login. */
  class AccountInfo {
    var hsClientApiUrl: Option<string>
    var mxid: Option<string>
    var accessToken: Option<string>
    var password: Option<string>

    /** `__init__`: every attribute `None`, so nothing to log in with. */
    constructor ()
      ensures hsClientApiUrl == None && mxid == None && accessToken == None && password == None
      ensures LoginType() == MatrixClientCore.T_UNDEF
    {
      hsClientApiUrl := None;
      mxid := None;
      accessToken := None;
      password := None;
    }

    /** The attributes as a value of the newer framework's record. */
    function Snapshot(): MatrixClientCore.AccountInfo
      reads this
    {
      MatrixClientCore.AccountInfo(hsClientApiUrl, mxid, accessToken, password)
    }

    /** `login_type`: undefined without a server URL and a user id, then a
        token before a password; the newer framework classifies alike. */
    function LoginType(): (t: int)
      reads this
      ensures t == MatrixClientCore.LoginType(Snapshot())
      ensures !MatrixClientCore.Truthy(hsClientApiUrl) || !MatrixClientCore.Truthy(mxid) ==>
                t == MatrixClientCore.T_UNDEF
      ensures t == MatrixClientCore.T_TOKEN <==>
                MatrixClientCore.Truthy(hsClientApiUrl) && MatrixClientCore.Truthy(mxid) &&
                MatrixClientCore.Truthy(accessToken)
      ensures t == MatrixClientCore.T_PASSWORD <==>
                MatrixClientCore.Truthy(hsClientApiUrl) && MatrixClientCore.Truthy(mxid) &&
                !MatrixClientCore.Truthy(accessToken) && MatrixClientCore.Truthy(password)
    {
      if !MatrixClientCore.Truthy(hsClientApiUrl) then MatrixClientCore.T_UNDEF
      else if !MatrixClientCore.Truthy(mxid) then MatrixClientCore.T_UNDEF
      else if MatrixClientCore.Truthy(accessToken) then MatrixClientCore.T_TOKEN
      else if MatrixClientCore.Truthy(password) then MatrixClientCore.T_PASSWORD
      else MatrixClientCore.T_UNDEF
    }
  }

  // ---------------------------------------------------------------------
  // RoomList
  // ---------------------------------------------------------------------

  /** The first alias of `cs` that starts with `#` sits at `k`: every alias
      before it is `None` or has no prefix. */
  ghost predicate FirstHashAt(cs: seq<Option<string>>, k: int) {
    && 0 <= k < |cs|
    && cs[k].Some? && AliasPrefix(cs[k].value).Some?
    && forall i :: 0 <= i < k ==> cs[i].None? || AliasPrefix(cs[i].value).None?
  }

  /** No alias of `cs` starts with `#`. */
  ghost predicate NoHash(cs: seq<Option<string>>) {
    forall i :: 0 <= i < |cs| ==> cs[i].None? || AliasPrefix(cs[i].value).None?
  }

  class RoomList {
    var roomsById: map<string, Room>
    var roomsByAlias: map<string, Room>
    var roomsByPrefix: map<string, PrefixEntry>
    /** The dictionary the directory was built from, in iteration order. */
    ghost var roomsdict: seq<(string, Room)>

    ghost predicate Valid()
      reads this
    {
      && DistinctKeys(roomsdict)
      && roomsById == IdMap(roomsdict)
      && roomsByAlias == AliasIndex(Values(roomsdict))
      && roomsByPrefix == PrefixIndex(Values(roomsdict))
    }

    /** `__init__`: the same three indexes as the newer directory. */
    constructor (roomsdict: seq<(string, Room)>)
      requires DistinctKeys(roomsdict)
      ensures Valid() && this.roomsdict == roomsdict
    {
      this.roomsdict := roomsdict;
      roomsById := IdMap(roomsdict);
      var byAlias, byPrefix := IndexRooms(Values(roomsdict));
      roomsByAlias := byAlias;
      roomsByPrefix := byPrefix;
    }

    /** `get_room`: look the key up by id, then by alias, then by prefix. */
    function GetRoom(key: string): (r: Option<Room>)
      reads this
      ensures key in roomsById ==> r == Some(roomsById[key])
      ensures key !in roomsById && key in roomsByAlias ==> r == Some(roomsByAlias[key])
      ensures r.Some? ==> key in roomsById || key in roomsByAlias || key in roomsByPrefix
    {
      Resolve(roomsById, roomsByAlias, roomsByPrefix, key)
    }

    /** What `get_room` finds, as in the newer directory: the room under an
        id, else the last room with that alias, else the single owner of
        that prefix. */
    lemma GetRoomMeaning(key: string)
      requires Valid()
      ensures Resolution(roomsdict, key, GetRoom(key))
    {
      ResolveMeaning(roomsdict, key);
    }

    /** What a `#` alias yields: its prefix when that prefix resolves to some
        room, and the alias itself otherwise. */
    function Pick(a: string): (h: string)
      reads this
      requires AliasPrefix(a).Some?
      ensures h == a || (h == AliasPrefix(a).value && GetRoom(h).Some?)
      ensures GetRoom(AliasPrefix(a).value).Some? ==> h == AliasPrefix(a).value
    {
      var p := AliasPrefix(a).value;
      if GetRoom(p).Some? then p else a
    }

    /** The scan of `get_room_handle` over the aliases `cs` still to visit,
        with `best` the handle kept so far: the first `#` alias ends the scan;
        an alias without `#` is kept only while nothing else has been; at the
        end the room's first listed alias wins over what was kept. */
    function Scan(key: string, room: Room, cs: seq<Option<string>>, best: string): (h: string)
      reads this
      ensures || h == best
              || (|room.aliases| > 0 && h == room.aliases[0])
              || exists a :: Some(a) in cs && (h == a || AliasPrefix(a) == Some(h))
      decreases |cs|
    {
      if cs == [] then
        if |room.aliases| > 0 then room.aliases[0] else best
      else match cs[0]
        case None => Scan(key, room, cs[1..], best)
        case Some(a) =>
          if AliasPrefix(a).None? then Scan(key, room, cs[1..], if best == key then a else best)
          else Pick(a)
    }

    /** The scan returns what the first `#` alias yields, whatever lies
        after it. */
    lemma {:induction false} ScanFirstHash(key: string, room: Room, cs: seq<Option<string>>, best: string, k: int)
      requires FirstHashAt(cs, k)
      ensures Scan(key, room, cs, best) == Pick(cs[k].value)
      decreases k
    {
      if k > 0 {
        var best' := if cs[0].Some? && best == key then cs[0].value else best;
        assert FirstHashAt(cs[1..], k - 1);
        ScanFirstHash(key, room, cs[1..], best', k - 1);
      }
    }

    /** Without a `#` alias the scan ends on the room's first listed alias,
        if it has one. */
    lemma {:induction false} ScanNoHash(key: string, room: Room, cs: seq<Option<string>>, best: string)
      requires NoHash(cs) && |room.aliases| > 0
      ensures Scan(key, room, cs, best) == room.aliases[0]
      decreases |cs|
    {
      if cs != [] {
        var best' := if cs[0].Some? && best == key then cs[0].value else best;
        assert NoHash(cs[1..]);
        ScanNoHash(key, room, cs[1..], best');
      }
    }

    /** If `cs` has a `#` alias, the first one sits somewhere. */
    lemma {:induction false} FirstHashExists(cs: seq<Option<string>>)
      requires !NoHash(cs)
      ensures exists k :: FirstHashAt(cs, k)
      decreases |cs|
    {
      if cs[0].Some? && AliasPrefix(cs[0].value).Some? {
        assert FirstHashAt(cs, 0);
      } else {
        assert !NoHash(cs[1..]) by {
          var i :| 0 <= i < |cs| && !(cs[i].None? || AliasPrefix(cs[i].value).None?);
          assert i > 0 && cs[1..][i - 1] == cs[i];
        }
        FirstHashExists(cs[1..]);
        var k :| FirstHashAt(cs[1..], k);
        assert FirstHashAt(cs, k + 1);
      }
    }

    /** What the whole scan over a room's aliases gives: what its first `#`
        alias yields; without one, its first listed alias, else its
        canonical alias, else the key.  The result is then one of the room's
        aliases, or the prefix of one that resolves to some room. */
    lemma HandleMeaning(key: string, room: Room)
      ensures var cs := Chain(room);
        forall k :: FirstHashAt(cs, k) ==> Scan(key, room, cs, key) == Pick(cs[k].value)
      ensures var cs := Chain(room);
        NoHash(cs) ==>
          Scan(key, room, cs, key) ==
            if |room.aliases| > 0 then room.aliases[0]
            else if room.canonicalAlias.Some? then room.canonicalAlias.value
            else key
      ensures var h := Scan(key, room, Chain(room), key);
        (forall a :: !HasAlias(room, a)) ==> h == key
      ensures var h := Scan(key, room, Chain(room), key);
        (exists a :: HasAlias(room, a)) ==>
          || HasAlias(room, h)
          || (GetRoom(h).Some? && exists a :: HasAlias(room, a) && AliasPrefix(a) == Some(h))
    {
      var cs := Chain(room);
      var h := Scan(key, room, cs, key);
      forall k | FirstHashAt(cs, k)
        ensures h == Pick(cs[k].value)
      {
        ScanFirstHash(key, room, cs, key, k);
      }
      if NoHash(cs) {
        if |room.aliases| > 0 {
          ScanNoHash(key, room, cs, key);
          assert cs[1] == Some(room.aliases[0]);
        } else {
          assert cs == [room.canonicalAlias];
          assert cs[1..] == [];
        }
      } else {
        FirstHashExists(cs);
        var k :| FirstHashAt(cs, k);
        ScanFirstHash(key, room, cs, key, k);
        assert HasAlias(room, cs[k].value);
      }
      if forall a :: !HasAlias(room, a) {
        assert NoHash(cs) by {
          forall i | 0 <= i < |cs| ensures cs[i].None? {
            if cs[i].Some? {
              assert HasAlias(room, cs[i].value);
            }
          }
        }
        if |room.aliases| > 0 {
          assert HasAlias(room, room.aliases[0]) by { assert cs[1] == Some(room.aliases[0]); }
        }
        if room.canonicalAlias.Some? {
          assert HasAlias(room, room.canonicalAlias.value) by { assert cs[0] == room.canonicalAlias; }
        }
      } else if NoHash(cs) {
        if |room.aliases| > 0 {
          assert cs[1] == Some(room.aliases[0]);
        } else if room.canonicalAlias.Some? {
          assert cs[0] == room.canonicalAlias;
        }
      }
    }

    /** `get_room_handle`: a display handle for a room.  An unknown key is
        given back; otherwise the scan of the room's aliases decides, as
        `HandleMeaning` spells out. */
    method GetRoomHandle(key: string) returns (h: string)
      requires Valid()
      ensures GetRoom(key).None? ==> h == key
      ensures GetRoom(key).Some? ==> h == Scan(key, GetRoom(key).value, Chain(GetRoom(key).value), key)
      ensures GetRoom(key).Some? ==>
                var room := GetRoom(key).value;
                var cs := Chain(room);
                && (forall k :: FirstHashAt(cs, k) ==> h == Pick(cs[k].value))
                && (NoHash(cs) ==>
                      h == if |room.aliases| > 0 then room.aliases[0]
                           else if room.canonicalAlias.Some? then room.canonicalAlias.value
                           else key)
      ensures GetRoom(key).Some? ==>
                var room := GetRoom(key).value;
                && ((forall a :: !HasAlias(room, a)) ==> h == key)
                && ((exists a :: HasAlias(room, a)) ==>
                      || HasAlias(room, h)
                      || (GetRoom(h).Some? && exists a :: HasAlias(room, a) && AliasPrefix(a) == Some(h)))
    {
      var bestMatch := key;
      var room := GetRoom(key);
      if room.None? {
        return bestMatch;
      }
      var r := room.value;
      HandleMeaning(key, r);
      var cs := Chain(r);
      for j := 0 to |cs|
        invariant Scan(key, r, cs, key) == Scan(key, r, cs[j..], bestMatch)
      {
        assert cs[j..][0] == cs[j] && cs[j..][1..] == cs[j + 1..];
        var alias := cs[j];
        if alias.None? {
          continue;
        }
        var m := AliasPrefix(alias.value);
        if m.None? {
          if bestMatch == key {
            bestMatch := alias.value;
          }
          continue;
        }
        var prefix := m.value;
        if GetRoom(prefix).Some? {
          return prefix;
        }
        return alias.value;
      }
      assert cs[|cs|..] == [];
      if |r.aliases| > 0 {
        return r.aliases[0];
      }
      return bestMatch;
    }
  }

  /** Both directories built from the same rooms resolve every key alike. */
  lemma SameRooms(newer: MatrixClientCore.RoomList, older: RoomList, key: string)
    requires newer.Valid() && older.Valid() && newer.roomsdict == older.roomsdict
    ensures newer.GetRoom(key) == older.GetRoom(key)
  {
  }

  /** The two handle lookups side by side: they agree on an unknown key and
      on a room without aliases, and otherwise the newer lookup's handle is
      never longer than the older one's, which stops at the first `#` alias
      instead of comparing lengths. */
  method CompareHandles(newer: MatrixClientCore.RoomList, older: RoomList, key: string)
    returns (hNew: string, hOld: string)
    requires newer.Valid() && older.Valid() && newer.roomsdict == older.roomsdict
    ensures older.GetRoom(key).None? ==> hNew == key && hOld == key
    ensures older.GetRoom(key).Some? && (forall a :: !HasAlias(older.GetRoom(key).value, a)) ==>
              hNew == key && hOld == key
    ensures older.GetRoom(key).Some? && (exists a :: HasAlias(older.GetRoom(key).value, a)) ==>
              |hNew| <= |hOld|
  {
    hNew := newer.GetRoomHandle(key);
    hOld := older.GetRoomHandle(key);
    SameRooms(newer, older, key);
    if older.GetRoom(key).Some? && exists a :: HasAlias(older.GetRoom(key).value, a) {
      SameRooms(newer, older, hOld);
      assert newer.IsCandidate(older.GetRoom(key).value, hOld);
    }
  }

  // ---------------------------------------------------------------------
  // MXClient: the delay between retries after an exception
  // ---------------------------------------------------------------------

  /** Reading an attribute the object does not have. */
  datatype Error = AttributeError

  /** In this copy the two delay attributes are created only by `repl`;
      before that, touching them raises `AttributeError`. */
  class MXClient {
    var exceptionDelayInit: Option<int>
    var exceptionDelay: Option<int>
    /** `_exc_delay` calls since the delay was last set to its initial value. */
    ghost var failures: nat

    ghost predicate Valid()
      reads this
    {
      && (exceptionDelayInit.None? ==> exceptionDelay.None?)
      && (exceptionDelayInit.Some? ==>
            exceptionDelay == Some(MatrixClientCore.Doubled(exceptionDelayInit.value, failures)))
    }

    /** `__init__`: neither delay attribute exists yet. */
    constructor ()
      ensures Valid() && exceptionDelayInit == None && exceptionDelay == None
    {
      exceptionDelayInit := None;
      exceptionDelay := None;
      failures := 0;
    }

    /** What `repl` does to the delays before reading its first line: an
        initial delay of 30 seconds, which is also the current one. */
    method StartRepl()
      modifies this
      ensures Valid() && failures == 0
      ensures exceptionDelayInit == Some(30) && exceptionDelay == Some(30)
    {
      exceptionDelayInit := Some(30);
      exceptionDelay := exceptionDelayInit;
      failures := 0;
    }

    /** `_reset_exc_delay`: back to the initial delay, or `AttributeError`
        when there is none yet. */
    method ResetExcDelay() returns (r: Result<(), Error>)
      requires Valid()
      modifies this
      ensures Valid()
      ensures r.Failure? <==> old(exceptionDelayInit).None?
      ensures r.Failure? ==> r == Failure(AttributeError)
      ensures r.Failure? ==> exceptionDelay == old(exceptionDelay) && failures == old(failures)
      ensures r.Success? ==> exceptionDelay == exceptionDelayInit && failures == 0
      ensures exceptionDelayInit == old(exceptionDelayInit)
    {
      if exceptionDelayInit.None? {
        return Failure(AttributeError);
      }
      exceptionDelay := exceptionDelayInit;
      failures := 0;
      r := Success(());
    }

    /** `_exc_delay`: the current delay, which is then doubled, or
        `AttributeError` when there is none yet. */
    method ExcDelay() returns (r: Result<int, Error>)
      requires Valid()
      modifies this
      ensures Valid()
      ensures r.Failure? <==> old(exceptionDelay).None?
      ensures r.Failure? ==> r == Failure(AttributeError)
      ensures r.Failure? ==> exceptionDelay == old(exceptionDelay) && failures == old(failures)
      ensures r.Success? ==>
                && Some(r.value) == old(exceptionDelay)
                && exceptionDelay == Some(2 * r.value)
                && failures == old(failures) + 1
      ensures exceptionDelayInit == old(exceptionDelayInit)
    {
      if exceptionDelay.None? {
        return Failure(AttributeError);
      }
      r := Success(exceptionDelay.value);
      exceptionDelay := Some(exceptionDelay.value * 2);
      failures := failures + 1;
    }
  }

  /** A fresh client fails to produce a delay until `repl` has started;
      afterwards `k` exceptions in a row wait 30, 60, 120, ... seconds. */
  method BackoffSchedule(k: nat) returns (early: Result<int, Error>, delays: seq<int>)
    ensures early == Failure(AttributeError)
    ensures |delays| == k
    ensures forall i :: 0 <= i < k ==> delays[i] == MatrixClientCore.Doubled(30, i)
    ensures k > 0 ==> delays[0] == 30
    ensures forall i :: 0 < i < k ==> delays[i] == 2 * delays[i - 1]
  {
    var client := new MXClient();
    early := client.ExcDelay();
    client.StartRepl();
    delays := [];
    for i := 0 to k
      invariant client.Valid() && client.failures == i && client.exceptionDelayInit == Some(30)
      invariant |delays| == i && forall j :: 0 <= j < i ==> delays[j] == MatrixClientCore.Doubled(30, j)
    {
      var d := client.ExcDelay();
      delays := delays + [d.value];
    }
  }
}
