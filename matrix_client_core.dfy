/** The newer copy of the client framework (`matrix_client_core/__init__.py`):
    the account classifier, the room directory with its shortest-handle
    lookup, and the doubling delay between retries after an exception. */
module MatrixClientCore {
  import opened Wrappers
  import opened RoomIndex

  // ---------------------------------------------------------------------
  // AccountInfo.login_type
  // ---------------------------------------------------------------------

  const T_UNDEF := 0
  const T_TOKEN := 1
  const T_PASSWORD := 2

  /** The four attributes `login_type` reads; each may be `None`. */
  datatype AccountInfo = AccountInfo(hsClientApiUrl: Option<string>, mxid: Option<string>,
                                     accessToken: Option<string>, password: Option<string>)

  /** Python truthiness of an optional string: neither `None` nor empty. */
  predicate Truthy(v: Option<string>) {
    v.Some? && v.value != ""
  }

  /** How the account can log in: undefined without a server URL and a user
      id, otherwise by token when one is present, by password when only that
      is present, and undefined when neither is. */
  function LoginType(a: AccountInfo): (t: int)
    ensures t == T_UNDEF || t == T_TOKEN || t == T_PASSWORD
    ensures !Truthy(a.hsClientApiUrl) || !Truthy(a.mxid) ==> t == T_UNDEF
    ensures t == T_TOKEN <==> Truthy(a.hsClientApiUrl) && Truthy(a.mxid) && Truthy(a.accessToken)
    ensures t == T_PASSWORD <==>
              Truthy(a.hsClientApiUrl) && Truthy(a.mxid) && !Truthy(a.accessToken) && Truthy(a.password)
  {
    if !Truthy(a.hsClientApiUrl) then T_UNDEF
    else if !Truthy(a.mxid) then T_UNDEF
    else if Truthy(a.accessToken) then T_TOKEN
    else if Truthy(a.password) then T_PASSWORD
    else T_UNDEF
  }

  // ---------------------------------------------------------------------
  // Shortest handle
  // ---------------------------------------------------------------------

  /** The non-`None` elements of `args`, in order. */
  function Present(args: seq<Option<string>>): seq<string>
    decreases |args|
  {
    if args == [] then []
    else
      Present(args[..|args| - 1]) +
      (if args[|args| - 1].Some? then [args[|args| - 1].value] else [])
  }

  /** Scanning `cs` left to right and replacing the best candidate only by a
      strictly shorter one. */
  function FirstShortest(cs: seq<string>): Option<string>
    decreases |cs|
  {
    if cs == [] then None
    else
      var best := FirstShortest(cs[..|cs| - 1]);
      var a := cs[|cs| - 1];
      if best.None? || |a| < |best.value| then Some(a) else best
  }

  /** `cs[k]` is a shortest element of `cs`, and every earlier one is longer. */
  ghost predicate ShortestAt(cs: seq<string>, k: int) {
    && 0 <= k < |cs|
    && (forall j :: 0 <= j < |cs| ==> |cs[k]| <= |cs[j]|)
    && (forall j :: 0 <= j < k ==> |cs[k]| < |cs[j]|)
  }

  lemma {:induction false} PresentMeaning(args: seq<Option<string>>, x: string)
    ensures x in Present(args) <==> Some(x) in args
    ensures Present(args) == [] <==> forall i :: 0 <= i < |args| ==> args[i].None?
    decreases |args|
  {
    if args != [] {
      var init := args[..|args| - 1];
      PresentMeaning(init, x);
      assert args == init + [args[|args| - 1]];
    }
  }

  /** The scan returns nothing only for no candidates; otherwise it returns
      the first of the shortest candidates. */
  lemma {:induction false} FirstShortestMeaning(cs: seq<string>)
    ensures FirstShortest(cs).None? <==> cs == []
    ensures cs != [] ==> exists k :: ShortestAt(cs, k) && FirstShortest(cs) == Some(cs[k])
    decreases |cs|
  {
    if cs != [] {
      var n := |cs| - 1;
      var init := cs[..n];
      FirstShortestMeaning(init);
      var best := FirstShortest(init);
      if best.None? {
        assert init == [];
        assert ShortestAt(cs, n);
      } else {
        var k :| ShortestAt(init, k) && best == Some(init[k]);
        if |cs[n]| < |best.value| {
          assert ShortestAt(cs, n);
        } else {
          assert ShortestAt(cs, k);
        }
      }
    }
  }

  /** Offering one more candidate to the scan is what `_best_handle` does
      with the best match so far and the new candidate. */
  lemma FirstShortestStep(cs: seq<string>, a: string)
    ensures FirstShortest(cs + [a]) == FirstShortest(Present([FirstShortest(cs), Some(a)]))
  {
    assert (cs + [a])[..|cs|] == cs;
    var b := FirstShortest(cs);
    var two := [b, Some(a)];
    assert two[..1] == [b] && [b][..0] == [];
    assert Present([b]) == if b.Some? then [b.value] else [];
    assert Present(two) == Present([b]) + [a];
    if b.Some? {
      assert [b.value, a][..1] == [b.value] && [b.value][..0] == [];
      assert FirstShortest([b.value]) == b;
    }
  }

  // ---------------------------------------------------------------------
  // RoomList
  // ---------------------------------------------------------------------

  /** The room directory, built once from the rooms the client is in. */
  class RoomList {
    var roomsById: map<string, Room>
    var roomsByAlias: map<string, Room>
    var roomsByPrefix: map<string, PrefixEntry>
    /** The dictionary the directory was built from, in iteration order. */
    ghost var roomsdict: seq<(string, Room)>

    ghost predicate Valid()
      reads this
    {
      && DistinctKeys(roomsdict)
      && roomsById == IdMap(roomsdict)
      && roomsByAlias == AliasIndex(Values(roomsdict))
      && roomsByPrefix == PrefixIndex(Values(roomsdict))
    }

    constructor (roomsdict: seq<(string, Room)>)
      requires DistinctKeys(roomsdict)
      ensures Valid() && this.roomsdict == roomsdict
    {
      this.roomsdict := roomsdict;
      roomsById := IdMap(roomsdict);
      var byAlias, byPrefix := IndexRooms(Values(roomsdict));
      roomsByAlias := byAlias;
      roomsByPrefix := byPrefix;
    }

    /** `get_room`: look the key up by id, then by alias, then by prefix. */
    function GetRoom(key: string): (r: Option<Room>)
      reads this
      ensures key in roomsById ==> r == Some(roomsById[key])
      ensures key !in roomsById && key in roomsByAlias ==> r == Some(roomsByAlias[key])
      ensures r.Some? ==> key in roomsById || key in roomsByAlias || key in roomsByPrefix
    {
      Resolve(roomsById, roomsByAlias, roomsByPrefix, key)
    }

    /** What `get_room` finds: the room stored under an id; otherwise the
        last room with that alias; otherwise the one room owning that prefix,
        and nothing when none or several rooms own it. */
    lemma GetRoomMeaning(key: string)
      requires Valid()
      ensures Resolution(roomsdict, key, GetRoom(key))
    {
      ResolveMeaning(roomsdict, key);
    }

    /** `_best_handle`: the shortest argument that is not `None`, the earlier
        one on equal length, and `None` when every argument is `None`. */
    static method BestHandle(args: seq<Option<string>>) returns (best: Option<string>)
      ensures best == FirstShortest(Present(args))
      ensures best.None? <==> forall i :: 0 <= i < |args| ==> args[i].None?
      ensures best.Some? ==> Some(best.value) in args
      ensures best.Some? ==> forall i :: 0 <= i < |args| && args[i].Some? ==> |best.value| <= |args[i].value|
    {
      best := None;
      for i := 0 to |args|
        invariant best == FirstShortest(Present(args[..i]))
      {
        assert args[..i + 1][..i] == args[..i];
        var a := args[i];
        if a.None? {
          assert Present(args[..i + 1]) == Present(args[..i]);
          continue;
        }
        ghost var done := Present(args[..i]);
        assert Present(args[..i + 1]) == done + [a.value];
        assert (done + [a.value])[..|done|] == done;
        if best.None? || |a.value| < |best.value| {
          best := a;
        }
      }
      assert args[..|args|] == args;
      FirstShortestMeaning(Present(args));
      if best.Some? {
        ghost var k :| ShortestAt(Present(args), k) && best == Some(Present(args)[k]);
        PresentMeaning(args, best.value);
        forall i | 0 <= i < |args| && args[i].Some?
          ensures |best.value| <= |args[i].value|
        {
          PresentMeaning(args, args[i].value);
          ghost var j :| 0 <= j < |Present(args)| && Present(args)[j] == args[i].value;
        }
      }
      PresentMeaning(args, "");
    }

    /** The handle candidates one alias offers: the alias, then its prefix
        when that prefix resolves to some room. */
    ghost function AliasCandidates(a: string): seq<string>
      reads this
      requires Valid()
    {
      [a] + match AliasPrefix(a)
            case None => []
            case Some(p) => if GetRoom(p).Some? then [p] else []
    }

    /** The handle candidates of the aliases `cs`, in scan order. */
    ghost function Candidates(cs: seq<Option<string>>): seq<string>
      reads this
      requires Valid()
      decreases |cs|
    {
      if cs == [] then []
      else
        Candidates(cs[..|cs| - 1]) +
        match cs[|cs| - 1]
        case None => []
        case Some(a) => AliasCandidates(a)
    }

    /** `c` is a handle candidate of `room`: one of its aliases, or the prefix
        of one of them when that prefix resolves to some room. */
    ghost predicate IsCandidate(room: Room, c: string)
      reads this
      requires Valid()
    {
      || HasAlias(room, c)
      || (GetRoom(c).Some? && exists a :: HasAlias(room, a) && AliasPrefix(a) == Some(c))
    }

    lemma AliasCandidatesMeaning(a: string, c: string)
      requires Valid()
      ensures c in AliasCandidates(a) <==> c == a || (GetRoom(c).Some? && AliasPrefix(a) == Some(c))
    {
    }

    lemma {:induction false} CandidatesMeaning(cs: seq<Option<string>>, c: string)
      requires Valid()
      ensures c in Candidates(cs) <==>
                Some(c) in cs || (GetRoom(c).Some? && exists a :: Some(a) in cs && AliasPrefix(a) == Some(c))
      decreases |cs|
    {
      if cs != [] {
        var init, last := cs[..|cs| - 1], cs[|cs| - 1];
        CandidatesMeaning(init, c);
        assert cs == init + [last];
        assert Candidates(cs) == Candidates(init) + (if last.None? then [] else AliasCandidates(last.value));
        if last.Some? {
          AliasCandidatesMeaning(last.value, c);
        }
        if GetRoom(c).Some? && exists a :: Some(a) in cs && AliasPrefix(a) == Some(c) {
          var a :| Some(a) in cs && AliasPrefix(a) == Some(c);
          if Some(a) !in init {
            assert last == Some(a);
          }
        }
      }
    }

    lemma CandidatesStep(cs: seq<Option<string>>, j: int)
      requires Valid() && 0 <= j < |cs|
      ensures Candidates(cs[..j + 1]) ==
                Candidates(cs[..j]) + (if cs[j].None? then [] else AliasCandidates(cs[j].value))
    {
      assert cs[..j + 1][..j] == cs[..j];
    }

    lemma {:induction false} CandidatesEmpty(cs: seq<Option<string>>)
      requires Valid()
      ensures Candidates(cs) == [] <==> forall i :: 0 <= i < |cs| ==> cs[i].None?
      decreases |cs|
    {
      if cs != [] {
        var init := cs[..|cs| - 1];
        CandidatesEmpty(init);
        forall i | 0 <= i < |init| ensures init[i] == cs[i] { }
      }
    }

    /** What the scan over a room's candidates yields: nothing only when the
        room has no alias, and otherwise a candidate no longer than any other. */
    lemma HandleMeaning(room: Room)
      requires Valid()
      ensures var best := FirstShortest(Candidates(Chain(room)));
        && (best.None? <==> forall a :: !HasAlias(room, a))
        && (best.Some? ==> IsCandidate(room, best.value))
        && (best.Some? ==> forall c :: IsCandidate(room, c) ==> |best.value| <= |c|)
    {
      var cs := Chain(room);
      var cands := Candidates(cs);
      var best := FirstShortest(cands);
      FirstShortestMeaning(cands);
      CandidatesEmpty(cs);
      if best.None? {
        forall a ensures !HasAlias(room, a) {
          CandidatesMeaning(cs, a);
        }
      } else {
        var h := best.value;
        var k :| ShortestAt(cands, k) && best == Some(cands[k]);
        CandidatesMeaning(cs, h);
        forall c | IsCandidate(room, c)
          ensures |h| <= |c|
        {
          CandidatesMeaning(cs, c);
          var j :| 0 <= j < |cands| && cands[j] == c;
        }
        var i :| 0 <= i < |cs| && cs[i].Some?;
        assert HasAlias(room, cs[i].value);
      }
    }

    /** `get_room_handle`: a short display handle for a room.  An unknown key,
        or a room without an alias, gives the key back; otherwise the result
        is the first shortest among the room's aliases and those of their
        prefixes that resolve, in scan order. */
    method GetRoomHandle(key: string) returns (h: string)
      requires Valid()
      ensures GetRoom(key).None? ==> h == key
      ensures GetRoom(key).Some? ==>
                var room := GetRoom(key).value;
                var cands := Candidates(Chain(room));
                && (cands == [] ==> h == key)
                && (cands != [] ==> exists k :: ShortestAt(cands, k) && h == cands[k])
      ensures GetRoom(key).Some? ==>
                var room := GetRoom(key).value;
                && ((forall a :: !HasAlias(room, a)) ==> h == key)
                && ((exists a :: HasAlias(room, a)) ==>
                      && IsCandidate(room, h)
                      && (forall c :: IsCandidate(room, c) ==> |h| <= |c|))
    {
      var bestMatch: Option<string> := None;
      var room := GetRoom(key);
      if room.None? {
        return key;
      }
      var cs := Chain(room.value);
      for j := 0 to |cs|
        invariant bestMatch == FirstShortest(Candidates(cs[..j]))
      {
        CandidatesStep(cs, j);
        var alias := cs[j];
        if alias.None? {
          continue;
        }
        ghost var before := bestMatch;
        bestMatch := BestHandle([bestMatch, alias]);
        var m := AliasPrefix(alias.value);
        if m.Some? && GetRoom(m.value).Some? {
          ghost var mid := bestMatch;
          bestMatch := BestHandle([bestMatch, m]);
          ScanStepResolved(Candidates(cs[..j]), alias.value, before, mid);
        } else {
          ScanStepAlias(Candidates(cs[..j]), alias.value, before);
        }
      }
      assert cs[..|cs|] == cs;
      h := if bestMatch.None? then key else bestMatch.value;
      HandleResult(key, h);
    }

    /** One alias of the scan whose prefix does not resolve: only the alias
        itself competes. */
    lemma ScanStepAlias(done: seq<string>, a: string, before: Option<string>)
      requires Valid() && before == FirstShortest(done)
      requires AliasPrefix(a).None? || GetRoom(AliasPrefix(a).value).None?
      ensures FirstShortest(done + AliasCandidates(a)) == FirstShortest(Present([before, Some(a)]))
    {
      assert AliasCandidates(a) == [a];
      FirstShortestStep(done, a);
    }

    /** One alias of the scan whose prefix resolves: the alias competes, then
        the prefix. */
    lemma ScanStepResolved(done: seq<string>, a: string, before: Option<string>, mid: Option<string>)
      requires Valid() && before == FirstShortest(done)
      requires AliasPrefix(a).Some? && GetRoom(AliasPrefix(a).value).Some?
      requires mid == FirstShortest(Present([before, Some(a)]))
      ensures FirstShortest(done + AliasCandidates(a)) == FirstShortest(Present([mid, AliasPrefix(a)]))
    {
      var p := AliasPrefix(a).value;
      assert AliasCandidates(a) == [a, p];
      FirstShortestStep(done, a);
      FirstShortestStep(done + [a], p);
      assert done + [a] + [p] == done + [a, p];
    }

    /** The handle the scan leaves behind meets `get_room_handle`'s
        contract. */
    lemma HandleResult(key: string, h: string)
      requires Valid() && GetRoom(key).Some?
      requires var best := FirstShortest(Candidates(Chain(GetRoom(key).value)));
        h == if best.None? then key else best.value
      ensures var room := GetRoom(key).value;
                var cands := Candidates(Chain(room));
                && (cands == [] ==> h == key)
                && (cands != [] ==> exists k :: ShortestAt(cands, k) && h == cands[k])
      ensures var room := GetRoom(key).value;
                && ((forall a :: !HasAlias(room, a)) ==> h == key)
                && ((exists a :: HasAlias(room, a)) ==>
                      && IsCandidate(room, h)
                      && (forall c :: IsCandidate(room, c) ==> |h| <= |c|))
    {
      var room := GetRoom(key).value;
      HandleMeaning(room);
      FirstShortestMeaning(Candidates(Chain(room)));
    }
  }

  // ---------------------------------------------------------------------
  // MXClient: the delay between retries after an exception
  // ---------------------------------------------------------------------

  /** The delay after `n` doublings of `init`. */
  function Doubled(init: int, n: nat): (d: int)
    ensures init > 0 ==> d >= init
  {
    if n == 0 then init else 2 * Doubled(init, n - 1)
  }

  /** The part of the client that paces retries: each exception waits twice
      as long as the one before, until an event arrives and resets it. */
  class MXClient {
    const exceptionDelayInit: int
    var exceptionDelay: int
    /** `_exc_delay` calls since the last reset. */
    ghost var failures: nat

    ghost predicate Valid()
      reads this
    {
      exceptionDelay == Doubled(exceptionDelayInit, failures)
    }

    constructor ()
      ensures Valid() && exceptionDelayInit == 45 && exceptionDelay == 45 && failures == 0
    {
      exceptionDelayInit := 45;
      exceptionDelay := 45;
      failures := 0;
    }

    /** `_reset_exc_delay`: back to the initial delay. */
    method ResetExcDelay()
      modifies this
      ensures Valid() && failures == 0
      ensures exceptionDelay == exceptionDelayInit
    {
      exceptionDelay := exceptionDelayInit;
      failures := 0;
    }

    /** `_exc_delay`: the current delay, which is then doubled. */
    method ExcDelay() returns (delay: int)
      requires Valid()
      modifies this
      ensures Valid() && failures == old(failures) + 1
      ensures delay == old(exceptionDelay) && exceptionDelay == 2 * delay
    {
      delay := exceptionDelay;
      exceptionDelay := exceptionDelay * 2;
      failures := failures + 1;
    }
  }

  /** `k` exceptions in a row after a reset wait 45, 90, 180, ... seconds:
      the i-th waits 45 * 2^i. */
  method BackoffSchedule(k: nat) returns (delays: seq<int>)
    ensures |delays| == k
    ensures forall i :: 0 <= i < k ==> delays[i] == Doubled(45, i)
    ensures k > 0 ==> delays[0] == 45
    ensures forall i :: 0 < i < k ==> delays[i] == 2 * delays[i - 1]
  {
    var client := new MXClient();
    client.ResetExcDelay();
    delays := [];
    for i := 0 to k
      invariant client.Valid() && client.failures == i && client.exceptionDelayInit == 45
      invariant |delays| == i && forall j :: 0 <= j < i ==> delays[j] == Doubled(45, j)
    {
      var d := client.ExcDelay();
      delays := delays + [d];
    }
  }
}
