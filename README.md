# matrix-client-core, modelled in Dafny

This project models the sequential core of matrix-client-core, a small Python
framework for writing Matrix chat clients and bots. It has four parts.

- **The room directory** (`RoomList`, module `RoomIndex` plus the two client
  modules).
  - Given the rooms the client has joined, keyed by room id, the constructor
    builds three indexes: by id, by alias, and by alias prefix. An alias
    prefix is `#` followed by everything before the first `:`.
  - A prefix entry is a single room, or a list of rooms once a second distinct
    room claims the same prefix.
  - `get_room` resolves a key through the three indexes in that order. A
    prefix owned by several rooms resolves to nothing.
  - `get_room_handle` picks a short display name for a room.
  - The newer copy (`matrix_client_core/__init__.py`, module
    `MatrixClientCore`) picks the shortest alias, or the shortest prefix that
    resolves, through `_best_handle`.
  - The older copy (`client_framework.py`, module `ClientFramework`) stops at
    the first alias that starts with `#`. When no alias does, it falls back to
    the first listed alias.
  - `ClientFramework.CompareHandles` puts the two lookups side by side.
- **The account classifier** (`login_type`) and **the retry delay**
  (`_exc_delay` / `_reset_exc_delay`), in both copies. In the older copy the
  delay attributes exist only once the read-eval-print loop has set them.
  Before that, touching them raises `AttributeError`.
- **The publish/subscribe registry** (`Notifier`, module `Notifier`).
  - It holds a list of listeners without duplicates.
  - `add_listener` and `remove_listener` return booleans.
  - `notify` returns `None`, `False` or `True`.
  - `handle_notification` dispatches an event to the method named
    `on_<event with dots as underscores>`.
  - The module's own script is modelled as a method with its expected results.
- **The colour helpers** (`nocurses.py`, module `NoCurses`).
  - The table of the eight ANSI base colours.
  - `_parse_color`.
  - The rewriting `print` does on its arguments: the SGR escape sequence
    `ESC[3f;4bm` before the first argument, and `ESC[0m` as an extra last
    argument.

How Python things are modelled:

- **Rooms** are Dafny objects with constant fields. Two rooms are equal
  exactly when they are the same object, as with Python objects that define
  no `__eq__`.
- **The rooms dictionary** is a sequence of (id, room) pairs with distinct
  keys, in the order the dictionary iterates.
- **The indexes** are Dafny maps, which the loops of the constructor update.
- **A listener call** is given as a parameter `call`: the truthiness of what
  the listener returns for an event, or the exception it raises.
- **Python values and exceptions** are datatypes, and a raised exception is a
  `Failure` result.

The two copies of `RoomList.__init__` and `get_room` are identical code. Both
classes call the same `RoomIndex.IndexRooms` and `RoomIndex.Resolve`.

The comment in `get_room` claims a non-`None` result means the key identifies
the room uniquely. The model does not prove this, because the code does not
deliver it:

- an alias shared by two rooms resolves to the room processed last
  (`RoomIndex.AliasIndexLast`);
- `get_room_handle` accepts a prefix as soon as it resolves to some room,
  not necessarily the room whose alias it came from.

Both are stated as the code behaves.

`print` is modelled with `_parse_color` as written, because that is the
function it calls. A colour name with a capital letter therefore makes
`print` raise `KeyError` (see "Findings"). `NoCurses.ParseColor` is the
parser the code evidently intends.

## Model

| member | source | states |
|---|---|---|
| RoomIndex.Room.constructor | matrix_client_core/__init__.py:101-102 | a room carries its id, canonical alias (possibly `None`) and listed aliases |
| RoomIndex.ColonIndex | matrix_client_core/__init__.py:91 | the length of the longest leading part of an alias without `:`, which ends at a `:` or at the end |
| RoomIndex.Chain | matrix_client_core/__init__.py:102 | the scanned aliases are the canonical alias followed by every listed alias, in order |
| RoomIndex.AliasPrefix | matrix_client_core/__init__.py:105-107 | an alias has a prefix iff it starts with `#`; the prefix is the leading part of the alias up to, not including, the first `:` (the whole alias without one), and holds no `:` |
| RoomIndex.AddPrefix | matrix_client_core/__init__.py:108-114 | an alias without prefix changes nothing; otherwise the index gains exactly that prefix key, whose entry is the room alone or a list containing it |
| RoomIndex.IndexRooms | matrix_client_core/__init__.py:101-114 | the nested loops leave `roomsbyalias` and `roomsbyprefix` equal to the alias and prefix indexes of all rooms processed in dictionary order |
| RoomIndex.Values | matrix_client_core/__init__.py:101 | `roomsdict.values()` lists the dictionary's rooms in iteration order |
| RoomIndex.IdMapMeaning | matrix_client_core/__init__.py:97 | `roomsbyid` has exactly the dictionary's keys, each mapped to its own room |
| RoomIndex.AddAliasesMeaning | matrix_client_core/__init__.py:102-104 | storing one room under its aliases adds exactly those aliases, maps each of them to that room, and leaves every other entry alone |
| RoomIndex.AliasIndexStep | matrix_client_core/__init__.py:101-104 | processing one more room maps each of its aliases to it and keeps the entries of aliases it does not have |
| RoomIndex.AliasIndexKeys | matrix_client_core/__init__.py:101-104 | a key is in `roomsbyalias` iff some room has it as a non-`None` alias, canonical or listed |
| RoomIndex.AliasIndexLast | matrix_client_core/__init__.py:104 | when several rooms share an alias, the alias maps to the last of them in iteration order |
| RoomIndex.LastWithAliasExists | matrix_client_core/__init__.py:101-104 | an alias some room has has a last owner in iteration order |
| RoomIndex.FitsUpdate | matrix_client_core/__init__.py:108-114 | replacing a prefix entry by one that fits its claimants plus the new room keeps the whole index in agreement with the claims |
| RoomIndex.AddPrefixFits | matrix_client_core/__init__.py:108-114 | one insertion keeps every prefix entry as a single room when one room claimed the prefix, otherwise a duplicate-free list of all claimants of length at least two; a room already listed is not appended again |
| RoomIndex.AddPrefixesFits | matrix_client_core/__init__.py:102-114 | scanning one room's aliases keeps the prefix index in that same shape, now with that room's prefix claims added |
| RoomIndex.PrefixIndexFits | matrix_client_core/__init__.py:101-114 | after all rooms every prefix entry is the single claimant, or a list of all claimants without repeats, of length at least two |
| RoomIndex.ChainClaimsMeaning | matrix_client_core/__init__.py:102-107 | a room claims a prefix exactly when one of its non-`None` aliases has that prefix |
| RoomIndex.AllClaimsMeaning | matrix_client_core/__init__.py:101-107 | the rooms claiming a prefix are exactly the rooms owning it |
| RoomIndex.PrefixIndexMeaning | matrix_client_core/__init__.py:105-114 | a prefix is in `roomsbyprefix` iff some room owns it; its entry is that room when it is the only owner, or a list of all owners without repeats, of length at least two |
| RoomIndex.Resolve | matrix_client_core/__init__.py:116-134 | an id wins, then an alias; a single-room prefix entry gives that room; a list gives its only element when it has length one and nothing otherwise; a result always comes from one of the three indexes |
| RoomIndex.ResolveMeaning | matrix_client_core/__init__.py:116-134 | lookup order id, then alias (last owner), then prefix; a prefix resolves iff exactly one room owns it, to that room; an unknown key gives `None` |
| MatrixClientCore.LoginType | matrix_client_core/__init__.py:79-84 | undefined unless URL and user id are truthy; then token iff a token is truthy; password iff no token but a password; otherwise undefined |
| MatrixClientCore.RoomList.constructor | matrix_client_core/__init__.py:93-114 | the three indexes are those of the given dictionary |
| MatrixClientCore.RoomList.GetRoom | matrix_client_core/__init__.py:116-134 | the id index wins, then the alias index; any result comes from one of the three indexes |
| MatrixClientCore.RoomList.GetRoomMeaning | matrix_client_core/__init__.py:116-134 | `get_room` meets the resolution order above on the directory built from its dictionary |
| MatrixClientCore.PresentMeaning | matrix_client_core/__init__.py:140-141 | the non-`None` arguments are exactly those present, and none are iff every argument is `None` |
| MatrixClientCore.FirstShortestMeaning | matrix_client_core/__init__.py:139-144 | scanning candidates and replacing only by a strictly shorter one yields nothing iff there are none, and otherwise a shortest candidate that is the first of that length |
| MatrixClientCore.FirstShortestStep | matrix_client_core/__init__.py:142-143 | offering one more candidate to the scan equals `_best_handle` of the best so far and the new candidate |
| MatrixClientCore.RoomList.BestHandle | matrix_client_core/__init__.py:136-144 | `_best_handle` returns `None` iff every argument is `None`; otherwise an argument no longer than any other, the earliest on equal length |
| MatrixClientCore.RoomList.AliasCandidatesMeaning | matrix_client_core/__init__.py:154-160 | one alias offers itself and, when its prefix resolves to some room, that prefix |
| MatrixClientCore.RoomList.CandidatesMeaning | matrix_client_core/__init__.py:152-160 | the candidates of a room are its non-`None` aliases and those of their prefixes that resolve |
| MatrixClientCore.RoomList.CandidatesStep | matrix_client_core/__init__.py:152-160 | one more alias of the scan adds exactly that alias's candidates |
| MatrixClientCore.RoomList.CandidatesEmpty | matrix_client_core/__init__.py:161 | a room has no candidate iff it has no non-`None` alias |
| MatrixClientCore.RoomList.HandleMeaning | matrix_client_core/__init__.py:149-162 | over a room's candidates the scan gives nothing iff the room has no alias; otherwise a candidate no longer than any other candidate |
| MatrixClientCore.RoomList.ScanStepAlias | matrix_client_core/__init__.py:154-156 | an alias whose prefix does not resolve competes alone |
| MatrixClientCore.RoomList.ScanStepResolved | matrix_client_core/__init__.py:154-160 | an alias whose prefix resolves competes, then its prefix does |
| MatrixClientCore.RoomList.HandleResult | matrix_client_core/__init__.py:161-162 | the value the scan leaves behind meets the contract of `get_room_handle` |
| MatrixClientCore.RoomList.GetRoomHandle | matrix_client_core/__init__.py:146-162 | unknown key or a room without aliases gives the key; otherwise the first shortest of the room's aliases and resolving prefixes, no longer than any of them |
| MatrixClientCore.Doubled | matrix_client_core/__init__.py:252 | doubling a positive delay never makes it smaller |
| MatrixClientCore.MXClient.constructor | matrix_client_core/__init__.py:203-204 | initial delay 45 seconds, current delay equal to it |
| MatrixClientCore.MXClient.ResetExcDelay | matrix_client_core/__init__.py:247-248 | the current delay becomes the initial one |
| MatrixClientCore.MXClient.ExcDelay | matrix_client_core/__init__.py:250-253 | returns the current delay and doubles it; the delay is always the initial one times 2 to the number of calls since the reset |
| MatrixClientCore.BackoffSchedule | matrix_client_core/__init__.py:247-253 | k exceptions after a reset wait 45, then twice the previous delay each time |
| ClientFramework.AccountInfo.constructor | client_framework.py:22-26 | every attribute `None`, so the login type is undefined |
| ClientFramework.AccountInfo.LoginType | client_framework.py:71-76 | the same precedence as the newer classifier, to which it is equal |
| ClientFramework.RoomList.constructor | client_framework.py:85-106 | the same three indexes as the newer directory |
| ClientFramework.RoomList.GetRoom | client_framework.py:109-127 | the id index wins, then the alias index; any result comes from one of the three indexes |
| ClientFramework.RoomList.GetRoomMeaning | client_framework.py:109-127 | the same resolution order: id, alias (last owner), unique prefix owner, else `None` |
| ClientFramework.RoomList.Pick | client_framework.py:142-145 | a `#` alias yields its prefix when that prefix resolves to some room, and the alias otherwise |
| ClientFramework.RoomList.Scan | client_framework.py:135-147 | the scan of the remaining aliases gives the handle kept so far, the room's first listed alias, or one of the remaining aliases or its prefix |
| ClientFramework.RoomList.ScanFirstHash | client_framework.py:135-145 | the scan returns what the first `#` alias yields; later aliases are never examined |
| ClientFramework.RoomList.ScanNoHash | client_framework.py:138-147 | without a `#` alias the scan ends on the room's first listed alias when there is one |
| ClientFramework.RoomList.FirstHashExists | client_framework.py:135-141 | if some alias starts with `#` there is a first such alias |
| ClientFramework.RoomList.HandleMeaning | client_framework.py:132-147 | first `#` alias gives its prefix or itself; without one, the first listed alias, else the canonical alias, else the key; the result is an alias or a resolving prefix of one |
| ClientFramework.RoomList.GetRoomHandle | client_framework.py:129-147 | unknown key gives the key; otherwise the scan's result, as stated by `HandleMeaning` |
| ClientFramework.SameRooms | client_framework.py:109-127 | directories built from the same rooms resolve every key alike in both copies |
| ClientFramework.CompareHandles | client_framework.py:129-147 | both lookups give the key for an unknown key or a room without aliases; otherwise the newer handle is never longer than the older one |
| ClientFramework.MXClient.constructor | client_framework.py:176-180 | neither delay attribute exists yet |
| ClientFramework.MXClient.StartRepl | client_framework.py:288-289 | the initial and current delays become 30 seconds |
| ClientFramework.MXClient.ResetExcDelay | client_framework.py:200-201 | the delay becomes the initial one, or `AttributeError` when there is none |
| ClientFramework.MXClient.ExcDelay | client_framework.py:203-206 | returns the current delay and doubles it, or `AttributeError` when there is none |
| ClientFramework.BackoffSchedule | client_framework.py:200-206 | before the loop starts a delay raises `AttributeError`; after it, k exceptions wait 30, then twice the previous delay each time |
| Notifier.IndexOf | matrix_client_core/notifier.py:18 | the position of the first occurrence of a listener |
| Notifier.RemoveFirst | matrix_client_core/notifier.py:18 | `list.remove` shortens the list by one when the listener is present, and changes nothing otherwise |
| Notifier.CutAt | matrix_client_core/notifier.py:18 | after removing one position the others keep their order |
| Notifier.RemoveFirstDistinct | matrix_client_core/notifier.py:16-19 | removing from a duplicate-free list removes the listener altogether and adds no duplicate |
| Notifier.RemoveFirstKeeps | matrix_client_core/notifier.py:18 | every other listener stays registered |
| Notifier.Notifier.constructor | matrix_client_core/notifier.py:8-9 | no listeners |
| Notifier.Notifier.AddListener | matrix_client_core/notifier.py:11-14 | `False` and no change for a registered listener; otherwise appended at the end and `True`; never a duplicate |
| Notifier.Notifier.RemoveListener | matrix_client_core/notifier.py:16-19 | `False` and no change for an absent listener; otherwise removed, others kept in order, `True`; never a duplicate |
| Notifier.Notifier.Notify | matrix_client_core/notifier.py:21-31 | listeners called once each in order; a listener that raises stops the loop and its exception is the result, after exactly the listeners up to it were called; otherwise `None` iff no listeners, `True` iff some call was truthy, `False` iff every call was falsy |
| Notifier.DotsToUnderscores | matrix_client_core/notifier.py:44 | every `.` becomes `_`, everything else is kept |
| Notifier.HandlerName | matrix_client_core/notifier.py:44 | `on_` followed by the event with dots as underscores |
| Notifier.HandlerNameCollision | matrix_client_core/notifier.py:44 | two events reach the same handler iff they agree after the replacement; events without `_` reach the same handler only when equal |
| Notifier.HandlerNameIs | matrix_client_core/notifier.py:44 | `on_` followed by the event with each `.` read as `_` is the handler name |
| Notifier.LoginConnectHandler | matrix_client_core/notifier.py:53-56 | the event `mcc.mxc.login.connect` dispatches to `on_mcc_mxc_login_connect` |
| Notifier.FirstSyncHandler | matrix_client_core/notifier.py:58-60 | the event `mcc.mxc.first_sync.sync` dispatches to `on_mcc_mxc_first_sync_sync` |
| Notifier.FirstSyncDoneHandler | matrix_client_core/notifier.py:62-64 | the event `mcc.mxc.first_sync.sync_done` dispatches to `on_mcc_mxc_first_sync_sync_done` |
| Notifier.HandleNotification | matrix_client_core/notifier.py:43-50 | the method named after the event handles it; without one the default handler returns `None` |
| Notifier.ScriptCall | matrix_client_core/notifier.py:70-80 | no listener of the script raises, and only the bound method's result is truthy |
| Notifier.ScriptAdds | matrix_client_core/notifier.py:84-95 | results `None, True, False, False, True, False`, leaving both listeners in order |
| Notifier.ScriptRemoves | matrix_client_core/notifier.py:96-109 | results `True, True, False, False, True, False, None`, leaving no listener |
| Notifier.ScriptedSession | matrix_client_core/notifier.py:84-111 | the script's thirteen printed results, in order, and an empty listener list at the end |
| NoCurses.Enumerate | matrix_client_core/nocurses.py:3 | every name enumerates to a position of the list |
| NoCurses.Colors | matrix_client_core/nocurses.py:3 | every colour in the table is a number from 0 to 7 |
| NoCurses.EnumerateMeaning | matrix_client_core/nocurses.py:3 | a list of distinct names enumerates to exactly its names, each mapped to its position |
| NoCurses.ColorsTable | matrix_client_core/nocurses.py:3 | the table is the enumeration of the eight names; black, red, green, yellow, blue, magenta, cyan, grey map to 0..7 and nothing else is in it |
| NoCurses.NamesAreLower | matrix_client_core/nocurses.py:3-8 | every colour name is already in lower case |
| NoCurses.Lower | matrix_client_core/nocurses.py:8 | ASCII capitals become lower case, every other character is kept |
| NoCurses.LowerIdempotent | matrix_client_core/nocurses.py:8 | lowering twice is lowering once |
| NoCurses.CheckRange | matrix_client_core/nocurses.py:11 | an integer outside 0..7 raises `ValueError`, one inside is returned |
| NoCurses.ParseColorAsWritten | matrix_client_core/nocurses.py:5-12 | as written, `KeyError` exactly for a known colour name not in lower case; every success lies in 0..7 |
| NoCurses.ParseColorAsWrittenMeaning | matrix_client_core/nocurses.py:5-12 | as written, `TypeError` iff neither str nor int; `ValueError` iff a name unknown in any case or an integer outside 0..7; a lower-case name gives its number, an integer in range itself, a bool 0 or 1 |
| NoCurses.ParseColor | matrix_client_core/nocurses.py:5-12 | every success lies in 0..7; `TypeError` iff neither str nor int; `ValueError` iff unknown name or integer outside 0..7; a bool is 0 or 1 |
| NoCurses.ParseColorNames | matrix_client_core/nocurses.py:7-9 | a name parses case-insensitively, to its table number |
| NoCurses.ParseColorAgrees | matrix_client_core/nocurses.py:5-12 | the written and the intended parser agree on every value except strings not in lower case |
| NoCurses.CapitalizedColorName | matrix_client_core/nocurses.py:8 | `"Red"` raises `KeyError` as written and parses to 1 as intended |
| NoCurses.Decimal | matrix_client_core/nocurses.py:23 | `str` of a number is a non-empty string of digits without a leading zero |
| NoCurses.DecimalValue | matrix_client_core/nocurses.py:23 | the digits `str` writes stand for the number itself |
| NoCurses.Join | matrix_client_core/nocurses.py:31 | `";".join` of no codes is empty, of one code is that code, of two is both with `;` between |
| NoCurses.Sgr | matrix_client_core/nocurses.py:31 | the escape sequence starts with `ESC[` and ends with `m` |
| NoCurses.KeywordColor | matrix_client_core/nocurses.py:21-26 | a colour keyword present gives the number its value parses to, in 0..7; an absent one gives none |
| NoCurses.CodesFor | matrix_client_core/nocurses.py:20-28 | one code per colour given, fg before bg |
| NoCurses.CodesForValues | matrix_client_core/nocurses.py:22-27 | the foreground code stands for 30 plus the colour, the background code for 40 plus the colour |
| NoCurses.ColorCodes | matrix_client_core/nocurses.py:20-28 | one code for each colour keyword present |
| NoCurses.TwoDigits | matrix_client_core/nocurses.py:22-27 | the codes 30..47 are written with two digits |
| NoCurses.SgrBoth | matrix_client_core/nocurses.py:20-31 | both colours give `ESC[3f;4bm` |
| NoCurses.SgrForeground | matrix_client_core/nocurses.py:20-31 | a foreground alone gives `ESC[3fm` |
| NoCurses.SgrBackground | matrix_client_core/nocurses.py:25-31 | a background alone gives `ESC[4bm` |
| NoCurses.SgrShape | matrix_client_core/nocurses.py:20-31 | the sequence is `ESC[3f;4bm`, `ESC[3fm` or `ESC[4bm`, fg before bg |
| NoCurses.ColorKeyword | matrix_client_core/nocurses.py:21-28 | a colour keyword present is parsed, raising what the parser raises, or gives the code of base plus its colour and is deleted; an absent one changes nothing |
| NoCurses.ColorCodesParts | matrix_client_core/nocurses.py:20-28 | the fg code followed by the bg code are the codes of the keywords |
| NoCurses.ColorKeywords | matrix_client_core/nocurses.py:20-28 | an invalid fg is the error, else an invalid bg; otherwise the codes of the keywords, with `fg` and `bg` deleted and every other keyword kept |
| NoCurses.ColorPrint | matrix_client_core/nocurses.py:16-33 | with the parser as written (`KeyError` included): an invalid fg is the error, else an invalid bg, else `TypeError` for a non-str first argument; on success fg and bg are removed from the keywords and the rest kept, and with at least one positional argument and a colour the first argument is prefixed, the middle ones kept and `ESC[0m` appended; otherwise the arguments are unchanged |
| NoCurses.RedForeground | matrix_client_core/nocurses.py:37 | `fg='red'` parses and selects code 31 |
| NoCurses.HelloRed | matrix_client_core/nocurses.py:36-37 | the script hands `ESC[31mHello world!` and `ESC[0m` to the real `print`, with no keywords |
| NoCurses.PrintCapitalized | matrix_client_core/nocurses.py:20-24 | `print("x", fg='Red')` raises `KeyError` before anything is written |

## Left out

- `matrix_client_core/ratelimit.py`: floating point, a random draw and a daemon thread, with no bound on the probability promised.
- Account file and keyboard input (`loadfromfile`, `savetofile`, `_ask`, `_askpass`, `getfromkeyboard`, `_ensure_account`): JSON file and terminal I/O.
- The SDK glue (`NoSyncMatrixClient`, `MXClient.login`, `first_sync`, `hook`, `_make_sdkclient`): calls into the chat SDK and the network.
- Sending queue and threads (`sendmsg`, `sendrunner`, `start_send_thread`) and the sleeping and traceback printing of `on_exception`: concurrency, clocks and printing.
- `on_global_timeline_event`, the `repl` loop and the `repl_*` commands: terminal I/O. Only the two lines of `repl` that create the older copy's delay attributes are modelled (`ClientFramework.MXClient.StartRepl`).
- `UnRedactBot.py` and `TestClient.py`: bot and test glue over the SDK.
- Notifier: thread safety, and listeners that change the registry while `notify` runs. Listeners are modelled as values compared by `==` that do not touch the registry.
- Notifier: the module-level `GLOBAL_NOTIFIER` singleton and its three aliases. The model works on an instance, and the script runs on a fresh one.
- Notifier: the bodies of `NotificationListener`'s handlers, which only print and read the clock. Only the names they are found by are modelled. `autoconnect` in `BaseNotificationListener.__init__` is the same `add_listener` call.
- Notifier.HandleNotification: a listener's methods are given as a map from method name to handler, so Python attribute lookup (inherited methods, non-callable attributes) is not modelled.
- Notifier.ScriptCall: the printing listeners are modelled only by the truthiness of their results.
- `_real_print`: the actual write is not modelled. `NoCurses.ColorPrint` returns the arguments it would hand over.
- NoCurses.Lower: folds only ASCII capitals, not the rest of Unicode that `str.lower` handles.
- Exception messages are not modelled, only the exception types.
- Python's `**kwargs` dictionary is modelled as a map without order. Keyword order does not change what `print` does.
- MatrixClientCore.MXClient.ExcDelay and ClientFramework.MXClient.ExcDelay: the delay is an unbounded integer, as Python integers are.
- RoomIndex.Room: the other room attributes (`display_name`, `topic`, sending) are not part of this model.

## Findings

| source | as written | input that shows it | evidently intended | confidence | as-written member | corrected member |
|---|---|---|---|---|---|---|
| matrix_client_core/nocurses.py:8 | a colour string is checked with `color.lower() in colors` but then looked up as `colors[color]`, unchanged | `_parse_color("Red")` raises `KeyError` (`NoCurses.CapitalizedColorName`), and so does `print("x", fg='Red')` (`NoCurses.PrintCapitalized`) | look up the lower-cased name. `"Red"` is red (1), and a known name in any case parses to its number | not executed | NoCurses.ParseColorAsWritten | NoCurses.ParseColor |
