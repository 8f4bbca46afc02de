/** Colour output without curses (`matrix_client_core/nocurses.py`): the
    table of the eight base ANSI colours, the parser of a colour argument,
    and the rewriting of a `print` call's arguments so that the whole output
    is wrapped in a Select Graphic Rendition escape sequence. */
module NoCurses {
  import opened Wrappers

  // ---------------------------------------------------------------------
  // Python values and exceptions
  // ---------------------------------------------------------------------

  /** The Python values a colour argument or a printed argument can be:
      `str`, `int`, `bool` (a subclass of `int`), and anything else. */
  datatype PyValue = PyStr(s: string) | PyInt(i: int) | PyBool(b: bool) | PyOther

  /** The exceptions the colour helpers raise. */
  datatype PyError = ValueError | TypeError | KeyError

  // ---------------------------------------------------------------------
  // The colour table
  // ---------------------------------------------------------------------

  /** The colour names, in the order of their ANSI numbers. */
  const ColorNames: seq<string> := ["black", "red", "green", "yellow", "blue", "magenta", "cyan", "grey"]

  /** `dict((y, x) for x, y in enumerate(names))`: each name maps to its
      position, a later occurrence winning. */
  function Enumerate(names: seq<string>): (m: map<string, int>)
    ensures forall name :: name in m ==> 0 <= m[name] < |names|
    decreases |names|
  {
    if names == [] then map[]
    else Enumerate(names[..|names| - 1])[names[|names| - 1] := |names| - 1]
  }

  /** The module's `colors` table. */
  function Colors(): (c: map<string, int>)
    ensures forall name :: name in c ==> 0 <= c[name] <= 7
  {
    Enumerate(ColorNames)
  }

  /** A name list without repeats enumerates to exactly its positions. */
  lemma {:induction false} EnumerateMeaning(names: seq<string>)
    requires forall i, j :: 0 <= i < j < |names| ==> names[i] != names[j]
    ensures Enumerate(names).Keys == set i | 0 <= i < |names| :: names[i]
    ensures forall i :: 0 <= i < |names| ==> Enumerate(names)[names[i]] == i
    decreases |names|
  {
    if names != [] {
      var init := names[..|names| - 1];
      EnumerateMeaning(init);
      assert forall i :: 0 <= i < |init| ==> init[i] == names[i];
    }
  }

  /** black, red, green, yellow, blue, magenta, cyan and grey are the
      colours 0 to 7, and the table holds nothing else. */
  lemma ColorsTable()
    ensures Colors().Keys == set i | 0 <= i < 8 :: ColorNames[i]
    ensures forall i :: 0 <= i < 8 ==> Colors()[ColorNames[i]] == i
    ensures forall name :: name in Colors() ==> 0 <= Colors()[name] <= 7
  {
    EnumerateMeaning(ColorNames);
  }

  // ---------------------------------------------------------------------
  // Lower case
  // ---------------------------------------------------------------------

  function LowerChar(c: char): (l: char)
    ensures 'A' <= c <= 'Z' ==> l as int == c as int + 32
    ensures !('A' <= c <= 'Z') ==> l == c
  {
    if 'A' <= c <= 'Z' then (c as int + 32) as char else c
  }

  /** `str.lower` on ASCII letters. */
  function Lower(s: string): (r: string)
    ensures |r| == |s|
    ensures forall i :: 0 <= i < |s| ==> r[i] == LowerChar(s[i])
    decreases |s|
  {
    if s == [] then [] else [LowerChar(s[0])] + Lower(s[1..])
  }

  /** Lowering twice is lowering once. */
  lemma LowerIdempotent(s: string)
    ensures Lower(Lower(s)) == Lower(s)
  {
    var l := Lower(s);
    assert forall i :: 0 <= i < |s| ==> LowerChar(l[i]) == l[i];
  }

  // ---------------------------------------------------------------------
  // _parse_color
  // ---------------------------------------------------------------------

  /** The range check both versions apply to an integer colour. */
  function CheckRange(c: int): (r: Result<int, PyError>)
    ensures r.Success? <==> 0 <= c <= 7
    ensures r.Success? ==> r.value == c
    ensures r.Failure? ==> r.error == ValueError
  {
    if c < 0 || c > 7 then Failure(ValueError) else Success(c)
  }

  /** Every name in the table is already in lower case. */
  lemma NamesAreLower()
    ensures forall name :: name in Colors() ==> Lower(name) == name
  {
    ColorsTable();
    forall i | 0 <= i < 8 ensures Lower(ColorNames[i]) == ColorNames[i] {
      var name := ColorNames[i];
      assert forall k :: 0 <= k < |name| ==> !('A' <= name[k] <= 'Z');
    }
  }

  /** `_parse_color` as written: a string is accepted when its lower-case
      form is a colour, but then looked up unchanged, so a name with a
      capital letter raises `KeyError`. */
  function ParseColorAsWritten(color: PyValue): (r: Result<int, PyError>)
    ensures r.Success? ==> 0 <= r.value <= 7
    ensures r == Failure(KeyError) <==> color.PyStr? && Lower(color.s) in Colors() && color.s !in Colors()
  {
    match color
    case PyStr(s) =>
      if Lower(s) in Colors() then
        if s in Colors() then CheckRange(Colors()[s]) else Failure(KeyError)
      else Failure(ValueError)
    case PyInt(i) => CheckRange(i)
    case PyBool(b) => CheckRange(if b then 1 else 0)
    case PyOther => Failure(TypeError)
  }

  /** What `_parse_color` as written does with each kind of value: the
      type and range errors, table lookups of names already in lower case,
      and integers and booleans in range. */
  lemma ParseColorAsWrittenMeaning(color: PyValue)
    ensures var r := ParseColorAsWritten(color);
      && (r == Failure(TypeError) <==> color.PyOther?)
      && (r == Failure(ValueError) <==>
            || (color.PyStr? && Lower(color.s) !in Colors())
            || (color.PyInt? && !(0 <= color.i <= 7)))
      && (color.PyStr? && color.s in Colors() ==> r == Success(Colors()[color.s]))
      && (color.PyInt? && 0 <= color.i <= 7 ==> r == Success(color.i))
      && (color.PyBool? ==> r == Success(if color.b then 1 else 0))
  {
    ColorsTable();
    NamesAreLower();
  }

  /** `_parse_color` as its comment and its error message intend: a colour
      name in any case, or an integer (`True` and `False` being 1 and 0)
      from 0 to 7. */
  function ParseColor(color: PyValue): (r: Result<int, PyError>)
    ensures r.Success? ==> 0 <= r.value <= 7
    ensures r == Failure(TypeError) <==> color.PyOther?
    ensures r == Failure(ValueError) <==>
              || (color.PyStr? && Lower(color.s) !in Colors())
              || (color.PyInt? && !(0 <= color.i <= 7))
    ensures r.Failure? ==> r.error != KeyError
    ensures color.PyInt? && 0 <= color.i <= 7 ==> r == Success(color.i)
    ensures color.PyBool? ==> r == Success(if color.b then 1 else 0)
  {
    ColorsTable();
    match color
    case PyStr(s) =>
      if Lower(s) in Colors() then CheckRange(Colors()[Lower(s)]) else Failure(ValueError)
    case PyInt(i) => CheckRange(i)
    case PyBool(b) => CheckRange(if b then 1 else 0)
    case PyOther => Failure(TypeError)
  }

  /** Every colour name parses to its number, in whatever case it is
      written. */
  lemma ParseColorNames(s: string)
    ensures ParseColor(PyStr(s)) == ParseColor(PyStr(Lower(s)))
    ensures forall i :: 0 <= i < 8 && Lower(s) == ColorNames[i] ==> ParseColor(PyStr(s)) == Success(i)
  {
    LowerIdempotent(s);
    ColorsTable();
  }

  /** The two versions differ only on strings that are not already in
      lower case. */
  lemma ParseColorAgrees(color: PyValue)
    requires color.PyStr? ==> Lower(color.s) == color.s
    ensures ParseColorAsWritten(color) == ParseColor(color)
  {
  }

  /** A name with a capital letter shows the difference: "Red" is red for
      the intended parser and a `KeyError` for the written one. */
  lemma CapitalizedColorName()
    ensures ParseColorAsWritten(PyStr("Red")) == Failure(KeyError)
    ensures ParseColor(PyStr("Red")) == Success(1)
  {
    assert Lower("Red") == "red";
    ColorsTable();
    assert ColorNames[1] == "red";
    assert "Red" !in Colors();
  }

  // ---------------------------------------------------------------------
  // print
  // ---------------------------------------------------------------------

  /** The escape character. */
  const Esc: char := 27 as char

  /** The sequence that restores the default colours. */
  const Reset: string := [Esc] + "[0m"

  /** The number a string of decimal digits stands for. */
  ghost function DigitsValue(s: string): int
    decreases |s|
  {
    if s == [] then 0 else DigitsValue(s[..|s| - 1]) * 10 + (s[|s| - 1] as int - '0' as int)
  }

  /** `str` of a natural number in decimal. */
  function Decimal(n: nat): (s: string)
    ensures |s| >= 1
    ensures forall i :: 0 <= i < |s| ==> '0' <= s[i] <= '9'
    ensures n >= 10 ==> s[0] != '0'
    decreases n
  {
    if n < 10 then ['0' + n as char] else Decimal(n / 10) + ['0' + (n % 10) as char]
  }

  /** The digits `str` writes stand for the number itself. */
  lemma {:induction false} DecimalValue(n: nat)
    ensures DigitsValue(Decimal(n)) == n
    decreases n
  {
    if n >= 10 {
      var s := Decimal(n);
      DecimalValue(n / 10);
      assert s[..|s| - 1] == Decimal(n / 10);
    }
  }

  /** `sep.join(parts)`. */
  function Join(sep: string, parts: seq<string>): (r: string)
    ensures |parts| == 0 ==> r == ""
    ensures |parts| == 1 ==> r == parts[0]
    ensures |parts| == 2 ==> r == parts[0] + sep + parts[1]
    decreases |parts|
  {
    if parts == [] then ""
    else if |parts| == 1 then parts[0]
    else
      assert |parts| == 2 ==> parts[..|parts| - 1] == [parts[0]];
      Join(sep, parts[..|parts| - 1]) + sep + parts[|parts| - 1]
  }

  /** The SGR escape sequence that selects the colours `codes`. */
  function Sgr(codes: seq<string>): (s: string)
    ensures |s| >= 3 && s[..2] == [Esc, '['] && s[|s| - 1] == 'm'
  {
    [Esc] + "[" + Join(";", codes) + "m"
  }

  /** No colour keyword holds a colour that fails to parse. */
  predicate ColorsParse(kwargs: map<string, PyValue>) {
    && ("fg" in kwargs ==> ParseColorAsWritten(kwargs["fg"]).Success?)
    && ("bg" in kwargs ==> ParseColorAsWritten(kwargs["bg"]).Success?)
  }

  /** The parsed colour under keyword `key`, when there is one. */
  function KeywordColor(kwargs: map<string, PyValue>, key: string): (c: Option<int>)
    requires key in kwargs ==> ParseColorAsWritten(kwargs[key]).Success?
    ensures c.Some? <==> key in kwargs
    ensures c.Some? ==> c.value == ParseColorAsWritten(kwargs[key]).value && 0 <= c.value <= 7
  {
    if key in kwargs then Some(ParseColorAsWritten(kwargs[key]).value) else None
  }

  /** The codes of a foreground and a background colour, as `print` lists
      them: `30 + fg`, then `40 + bg`. */
  function CodesFor(fg: Option<int>, bg: Option<int>): (codes: seq<string>)
    requires fg.Some? ==> 0 <= fg.value <= 7
    requires bg.Some? ==> 0 <= bg.value <= 7
    ensures |codes| == (if fg.Some? then 1 else 0) + (if bg.Some? then 1 else 0)
  {
    (if fg.Some? then [Decimal(fg.value + 30)] else []) +
    (if bg.Some? then [Decimal(bg.value + 40)] else [])
  }

  /** The foreground code stands for `30 + fg` and the background code
      for `40 + bg`. */
  lemma CodesForValues(fg: Option<int>, bg: Option<int>)
    requires fg.Some? ==> 0 <= fg.value <= 7
    requires bg.Some? ==> 0 <= bg.value <= 7
    ensures var codes := CodesFor(fg, bg);
      && (fg.Some? ==> DigitsValue(codes[0]) == 30 + fg.value)
      && (bg.Some? ==> DigitsValue(codes[|codes| - 1]) == 40 + bg.value)
  {
    if fg.Some? {
      DecimalValue(fg.value + 30);
    }
    if bg.Some? {
      DecimalValue(bg.value + 40);
    }
  }

  /** The colour codes the keywords ask for. */
  function ColorCodes(kwargs: map<string, PyValue>): (codes: seq<string>)
    requires ColorsParse(kwargs)
    ensures |codes| == (if "fg" in kwargs then 1 else 0) + (if "bg" in kwargs then 1 else 0)
  {
    CodesFor(KeywordColor(kwargs, "fg"), KeywordColor(kwargs, "bg"))
  }

  /** The digits of a two-digit number. */
  lemma TwoDigits(tens: int, ones: int)
    requires 1 <= tens <= 9 && 0 <= ones <= 9
    ensures Decimal(10 * tens + ones) == ['0' + tens as char, '0' + ones as char]
  {
    var n := 10 * tens + ones;
    assert n / 10 == tens && n % 10 == ones;
  }

  /** With both colours the escape sequence is `ESC [ 3f ; 4b m`. */
  lemma SgrBoth(f: int, b: int)
    requires 0 <= f <= 7 && 0 <= b <= 7
    ensures Sgr(CodesFor(Some(f), Some(b))) == [Esc, '[', '3', '0' + f as char, ';', '4', '0' + b as char, 'm']
  {
    TwoDigits(3, f);
    TwoDigits(4, b);
    assert CodesFor(Some(f), Some(b)) == [Decimal(f + 30), Decimal(b + 40)];
  }

  /** With a foreground only the escape sequence is `ESC [ 3f m`. */
  lemma SgrForeground(f: int)
    requires 0 <= f <= 7
    ensures Sgr(CodesFor(Some(f), None)) == [Esc, '[', '3', '0' + f as char, 'm']
  {
    TwoDigits(3, f);
    assert CodesFor(Some(f), None) == [Decimal(f + 30)];
  }

  /** With a background only the escape sequence is `ESC [ 4b m`. */
  lemma SgrBackground(b: int)
    requires 0 <= b <= 7
    ensures Sgr(CodesFor(None, Some(b))) == [Esc, '[', '4', '0' + b as char, 'm']
  {
    TwoDigits(4, b);
    assert CodesFor(None, Some(b)) == [Decimal(b + 40)];
  }

  /** The escape sequence is `ESC [ 3f ; 4b m` with both colours, and
      `ESC [ 3f m` or `ESC [ 4b m` with one, `f` and `b` being the digits
      of the colours. */
  lemma SgrShape(fg: Option<int>, bg: Option<int>)
    requires fg.Some? ==> 0 <= fg.value <= 7
    requires bg.Some? ==> 0 <= bg.value <= 7
    ensures var fs := ['3', '0' + (if fg.Some? then fg.value else 0) as char];
            var bs := ['4', '0' + (if bg.Some? then bg.value else 0) as char];
            && (fg.Some? && bg.Some? ==> Sgr(CodesFor(fg, bg)) == [Esc, '['] + fs + [';'] + bs + ['m'])
            && (fg.Some? && bg.None? ==> Sgr(CodesFor(fg, bg)) == [Esc, '['] + fs + ['m'])
            && (fg.None? && bg.Some? ==> Sgr(CodesFor(fg, bg)) == [Esc, '['] + bs + ['m'])
  {
    if fg.Some? && bg.Some? {
      SgrBoth(fg.value, bg.value);
    } else if fg.Some? {
      SgrForeground(fg.value);
    } else if bg.Some? {
      SgrBackground(bg.value);
    }
  }

  /** One colour keyword of `print`: when `key` is present, parse its
      value, produce the code `base + colour` and delete the keyword, or
      raise what parsing raises; without `key`, nothing changes. */
  method ColorKeyword(kwargs: map<string, PyValue>, key: string, base: nat)
    returns (r: Result<(seq<string>, map<string, PyValue>), PyError>)
    ensures key in kwargs && ParseColorAsWritten(kwargs[key]).Failure? ==>
              r == Failure(ParseColorAsWritten(kwargs[key]).error)
    ensures r.Success? <==> (key in kwargs ==> ParseColorAsWritten(kwargs[key]).Success?)
    ensures r.Success? ==> r.value.1 == kwargs - {key} && key !in r.value.1
    ensures r.Success? ==>
              r.value.0 == if key in kwargs then [Decimal(ParseColorAsWritten(kwargs[key]).value + base)] else []
    ensures r.Success? && key in kwargs ==>
              DigitsValue(r.value.0[0]) == base + ParseColorAsWritten(kwargs[key]).value
  {
    if key !in kwargs {
      return Success(([], kwargs - {key}));
    }
    var c := ParseColorAsWritten(kwargs[key]);
    if c.Failure? {
      return Failure(c.error);
    }
    DecimalValue(c.value + base);
    return Success(([Decimal(c.value + base)], kwargs - {key}));
  }

  /** The code of `fg`, if any, followed by the code of `bg`, if any, are
      the colour codes of the keywords. */
  lemma ColorCodesParts(kwargs: map<string, PyValue>, fgCodes: seq<string>, bgCodes: seq<string>)
    requires ColorsParse(kwargs)
    requires fgCodes == if "fg" in kwargs then [Decimal(ParseColorAsWritten(kwargs["fg"]).value + 30)] else []
    requires bgCodes == if "bg" in kwargs then [Decimal(ParseColorAsWritten(kwargs["bg"]).value + 40)] else []
    ensures fgCodes + bgCodes == ColorCodes(kwargs)
  {
    var f, b := KeywordColor(kwargs, "fg"), KeywordColor(kwargs, "bg");
    assert fgCodes == if f.Some? then [Decimal(f.value + 30)] else [];
    assert bgCodes == if b.Some? then [Decimal(b.value + 40)] else [];
  }

  /** Deleting two keys one after the other deletes both. */
  lemma RemoveBoth<K, V>(m: map<K, V>, a: K, b: K)
    ensures (m - {a}) - {b} == m - {a, b}
  {
  }

  /** The colour keywords of `print`: `fg`, then `bg`, collecting their
      codes and deleting both keywords, or raise what parsing raises; an
      invalid `fg` is reported before `bg` is looked at. */
  method ColorKeywords(kwargs: map<string, PyValue>)
    returns (r: Result<(seq<string>, map<string, PyValue>), PyError>)
    ensures "fg" in kwargs && ParseColorAsWritten(kwargs["fg"]).Failure? ==>
              r == Failure(ParseColorAsWritten(kwargs["fg"]).error)
    ensures !("fg" in kwargs && ParseColorAsWritten(kwargs["fg"]).Failure?) &&
            "bg" in kwargs && ParseColorAsWritten(kwargs["bg"]).Failure? ==>
              r == Failure(ParseColorAsWritten(kwargs["bg"]).error)
    ensures r.Success? <==> ColorsParse(kwargs)
    ensures r.Success? ==> r.value.0 == ColorCodes(kwargs) && r.value.1 == kwargs - {"fg", "bg"}
  {
    var fg := ColorKeyword(kwargs, "fg", 30);
    if fg.Failure? {
      return Failure(fg.error);
    }
    var kw := fg.value.1;
    assert "bg" in kw <==> "bg" in kwargs;
    if "bg" in kw {
      assert kw["bg"] == kwargs["bg"];
    }
    var bg := ColorKeyword(kw, "bg", 40);
    if bg.Failure? {
      return Failure(bg.error);
    }
    ColorCodesParts(kwargs, fg.value.0, bg.value.0);
    RemoveBoth(kwargs, "fg", "bg");
    return Success((fg.value.0 + bg.value.0, bg.value.1));
  }

  /** The argument and keyword rewriting of `print`: the positional and
      keyword arguments it hands to the real `print`, or the exception it
      raises first.  The colour keywords are parsed before the first
      argument is touched; with at least one positional argument and at
      least one colour, the first argument is prefixed with the escape
      sequence and the reset sequence is added at the end; `fg` and `bg`
      never reach the real `print`. */
  method ColorPrint(args: seq<PyValue>, kwargs: map<string, PyValue>)
    returns (r: Result<(seq<PyValue>, map<string, PyValue>), PyError>)
    ensures "fg" in kwargs && ParseColorAsWritten(kwargs["fg"]).Failure? ==>
              r == Failure(ParseColorAsWritten(kwargs["fg"]).error)
    ensures !("fg" in kwargs && ParseColorAsWritten(kwargs["fg"]).Failure?) &&
            "bg" in kwargs && ParseColorAsWritten(kwargs["bg"]).Failure? ==>
              r == Failure(ParseColorAsWritten(kwargs["bg"]).error)
    ensures ColorsParse(kwargs) && |args| > 0 && ("fg" in kwargs || "bg" in kwargs) && !args[0].PyStr? ==>
              r == Failure(TypeError)
    ensures r.Success? <==>
              ColorsParse(kwargs) && (|args| > 0 && ("fg" in kwargs || "bg" in kwargs) ==> args[0].PyStr?)
    ensures r.Success? ==> r.value.1 == kwargs - {"fg", "bg"}
    ensures r.Success? && (|args| == 0 || ("fg" !in kwargs && "bg" !in kwargs)) ==> r.value.0 == args
    ensures r.Success? && |args| > 0 && ("fg" in kwargs || "bg" in kwargs) ==>
              && |r.value.0| == |args| + 1
              && r.value.0[0] == PyStr(Sgr(ColorCodes(kwargs)) + args[0].s)
              && r.value.0[1..|args|] == args[1..]
              && r.value.0[|args|] == PyStr(Reset)
  {
    var parsed := ColorKeywords(kwargs);
    if parsed.Failure? {
      return Failure(parsed.error);
    }
    var colors, kw := parsed.value.0, parsed.value.1;
    var outArgs := args;
    if |args| > 0 && |colors| > 0 {
      var ansiseq := [Esc] + "[" + Join(";", colors) + "m";
      if !args[0].PyStr? {
        return Failure(TypeError);
      }
      outArgs := [PyStr(ansiseq + args[0].s)] + args[1..] + [PyStr(Reset)];
    }
    return Success((outArgs, kw));
  }

  /** `fg='red'` selects foreground colour 31. */
  lemma RedForeground()
    ensures ColorsParse(map["fg" := PyStr("red")])
    ensures Sgr(ColorCodes(map["fg" := PyStr("red")])) == [Esc] + "[31m"
  {
    var kwargs := map["fg" := PyStr("red")];
    ColorsTable();
    ParseColorAsWrittenMeaning(PyStr("red"));
    assert ColorNames[1] == "red";
    assert KeywordColor(kwargs, "fg") == Some(1);
    SgrShape(Some(1), None);
  }

  /** The text the module's script prints. */
  const Greeting := "Hello world!"

  /** The module's own script: `print("Hello world!", fg='red')` writes the
      greeting in red, then resets the colours. */
  method HelloRed() returns (r: Result<(seq<PyValue>, map<string, PyValue>), PyError>)
    ensures r == Success(([PyStr([Esc] + "[31m" + Greeting), PyStr(Reset)], map[]))
  {
    RedForeground();
    r := ColorPrint([PyStr(Greeting)], map["fg" := PyStr("red")]);
    assert r.value.1 == map[];
    assert r.value.0 == [r.value.0[0], r.value.0[1]];
  }

  /** A colour name with a capital letter makes `print` raise `KeyError`
      before anything is written: `print("x", fg='Red')`. */
  method PrintCapitalized() returns (r: Result<(seq<PyValue>, map<string, PyValue>), PyError>)
    ensures r == Failure(KeyError)
  {
    CapitalizedColorName();
    r := ColorPrint([PyStr("x")], map["fg" := PyStr("Red")]);
  }
}
