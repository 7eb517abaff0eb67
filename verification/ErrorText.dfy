/** The printed form of an error and its parser. Strings hold no zero character. */
module ErrorText {

  const OK: int := 0
  const RUNTIME_EXCEPTION: int := 403
  const COMPILE_ERROR: int := 423
  const SHORT_MAX: int := 32767
  const MESSAGE_SIZE: nat := 255
  const FILENAME_SIZE: nat := 79

  const AT_LINE: string := "at line "
  const IN_FILE: string := "in file "
  const ERROR: string := "Error "

  datatype Location = Location(filename: string, line: int)

  datatype Option<T> = None | Some(value: T)

  /** What the parser makes of a message; the parameter may be missing. */
  datatype Parsed = Parsed(code: int, param: Option<string>, location: Location)

  // ---------------------------------------------------------------- printing

  function Digit(d: nat): (c: char)
    requires d < 10
    ensures '0' <= c <= '9'
  {
    '0' + d as char
  }

  function Decimal(n: nat): (s: string)
    ensures |s| > 0 && forall i :: 0 <= i < |s| ==> '0' <= s[i] <= '9'
  {
    if n < 10 then [Digit(n)] else Decimal(n / 10) + [Digit(n % 10)]
  }

  /** The last digit counts units, the others are those of the tenth part. */
  lemma {:induction false} DecimalDigits(n: nat)
    ensures var s := Decimal(n);
            && s[|s| - 1] as int == '0' as int + n % 10
            && s[..|s| - 1] == if n < 10 then "" else Decimal(n / 10)
  {
    if n >= 10 { assert Decimal(n)[..|Decimal(n / 10)|] == Decimal(n / 10); }
  }

  function Shortened(s: string, size: nat): string {
    if |s| <= size then s else s[..size]
  }

  /** The constructor of a location keeps the beginning of a long file name. */
  function MakeLocation(filename: string, line: int): Location {
    Location(Shortened(filename, FILENAME_SIZE), line)
  }

  function InFile(filename: string, tail: string): string {
    if filename == "" then tail else " " + (IN_FILE + ("\"" + (filename + ("\"" + tail))))
  }

  function AtLine(loc: Location, tail: string): string
    requires loc.line >= 0
  {
    AT_LINE + (Decimal(loc.line) + InFile(loc.filename, tail))
  }

  function Numbered(code: nat, text: string, tail: string): string {
    "#" + (Decimal(code) + (" \"" + (text + ("\"" + tail))))
  }

  /** The message up to the parameter, with what follows it; text is the description of the code. */
  function Head(code: int, text: string, loc: Location, tail: string): string
    requires code >= 0 && loc.line >= 0
  {
    if code == COMPILE_ERROR then ERROR + AtLine(loc, tail)
    else if code == OK then tail
    else if loc.line != 0 then Numbered(code, text, " " + AtLine(loc, tail))
    else Numbered(code, text, tail)
  }

  /** The parameter behind the head. */
  function Tail(param: string): string {
    if param == "" then "" else ": " + param
  }

  function Map2String(code: int, text: string, param: string, loc: Location): string
    requires code >= 0 && loc.line >= 0
  {
    Shortened(Head(code, text, loc, ""), MESSAGE_SIZE) + Tail(param)
  }

  /** Where an error happened. */
  function Place(loc: Location): string
    requires loc.line >= 0
  {
    "at line " + Decimal(loc.line) + if loc.filename == "" then "" else " in file \"" + loc.filename + "\""
  }

  lemma {:induction false} AtLineIsPlace(loc: Location)
    requires loc.line >= 0
    ensures AtLine(loc, "") == Place(loc)
  {
    if loc.filename != "" {
      assert " " + (IN_FILE + ("\"" + (loc.filename + ("\"" + "")))) == " in file \"" + loc.filename + "\"";
      Moved("at line ", Decimal(loc.line), " in file \"" + loc.filename + "\"");
    } else {
      Moved("at line ", Decimal(loc.line), "");
    }
  }

  /** The printed form: code 423 is for compile errors, 0 for none, any other code is printed with its description and,
      if the line is known, the place; at most 255 characters, and the parameter behind them. */
  lemma {:induction false} PrintedForm(code: int, text: string, param: string, loc: Location)
    requires code >= 0 && loc.line >= 0
    ensures var head := if code == 423 then "Error " + Place(loc) else if code == 0 then "" else
                        "#" + Decimal(code) + " \"" + text + "\"" + if loc.line == 0 then "" else " " + Place(loc);
            Map2String(code, text, param, loc)
            == (if |head| <= 255 then head else head[..255]) + if param == "" then "" else ": " + param
  {
    AtLineIsPlace(loc);
    var tail := if loc.line == 0 then "" else " " + Place(loc);
    assert Numbered(code, text, tail) == "#" + Decimal(code) + " \"" + text + "\"" + tail;
    if loc.line == 0 { assert Numbered(code, text, "") == Numbered(code, text, tail); }
  }

  // ---------------------------------------------------------------- parsing what is left of a message

  predicate IsDigit(c: char) {
    '0' <= c <= '9'
  }

  function IntegerOf(r: string, acc: int): (int, string) {
    if r != "" && IsDigit(r[0]) then IntegerOf(r[1..], acc * 10 + (r[0] as int - '0' as int)) else (acc, r)
  }

  function WithoutSpaces(r: string): (q: string)
    ensures |q| <= |r|
  {
    if r != "" && r[0] as int <= 32 then WithoutSpaces(r[1..]) else r
  }

  /** Number of characters before the first c, all if there is none. */
  function Before(r: string, c: char): (n: nat)
    ensures n <= |r| && (forall i :: 0 <= i < n ==> r[i] != c) && (n < |r| ==> r[n] == c)
  {
    if r == "" || r[0] == c then 0 else 1 + Before(r[1..], c)
  }

  predicate StartsWith(r: string, p: string) {
    |p| <= |r| && r[..|p|] == p
  }

  function ParseArgument(code: int, param: Option<string>, loc: Location, r: string): Parsed {
    if StartsWith(r, ": ") then Parsed(code, Some(r[2..]), loc)
    else if r == "" then Parsed(code, Some(""), loc)
    else Parsed(code, param, loc)
  }

  function ParseFileName(code: int, param: Option<string>, line: int, r: string): Parsed {
    if |r| > 8 && StartsWith(r, IN_FILE) && (r[8] == '"' || r[8] == '\'') then
      var n := Before(r[9..], r[8]);
      var rest := r[9 + n..];
      ParseArgument(code, param, MakeLocation(r[9..9 + n], line), if rest == "" then rest else rest[1..])
    else if |r| > 8 && StartsWith(r, IN_FILE) then ParseArgument(code, param, Location("", line), r[8..])
    else ParseArgument(code, param, Location("", line), r)
  }

  function ParseLineNo(code: int, param: Option<string>, r: string): Parsed {
    if |r| > 8 && StartsWith(r, AT_LINE) then
      var (line, r') := IntegerOf(r[8..], 0);
      if r' != "" && r'[0] == ' ' then ParseFileName(code, param, line, r'[1..])
      else ParseArgument(code, param, Location("", line), r')
    else ParseArgument(code, param, Location("", 0), r)
  }

  function NotParsed(errstr: string): Parsed {
    Parsed(RUNTIME_EXCEPTION, Some(errstr), Location("", 0))
  }

  /** The rest of a quoted description: it ends at a quote before which a beginning of the text has been seen. */
  function ParseEndOfMessage(errstr: string, code: int, text: string, msg: string, r: string): Parsed
    decreases |r|
  {
    var n := Before(r, '"');
    if n == |r| then NotParsed(errstr)
    else if StartsWith(text, msg + r[..n]) then ParseLineNo(code, None, WithoutSpaces(r[n + 1..]))
    else ParseEndOfMessage(errstr, code, text, msg + r[..n] + "\"", r[n + 1..])
  }

  function Parse(errstr: string, texts: int -> string): Parsed {
    if errstr == "" then Parsed(OK, None, Location("", 0))
    else if errstr[0] == '#' then
      var (code, r) := IntegerOf(errstr[1..], 0);
      var q := WithoutSpaces(r);
      if code > SHORT_MAX || q == "" || q[0] != '"' then NotParsed(errstr)
      else ParseEndOfMessage(errstr, code, texts(code), "", q[1..])
    else if |errstr| > 14 && StartsWith(errstr, ERROR + AT_LINE) then ParseLineNo(COMPILE_ERROR, None, errstr[6..])
    else ParseLineNo(RUNTIME_EXCEPTION, Some(errstr), errstr)
  }

  // ---------------------------------------------------------------- reading back what was printed

  function DigitsValue(ds: string, acc: int): int {
    if ds == "" then acc else DigitsValue(ds[1..], acc * 10 + (ds[0] as int - '0' as int))
  }

  lemma {:induction false} DigitsSnoc(ds: string, c: char, acc: int)
    ensures DigitsValue(ds + [c], acc) == DigitsValue(ds, acc) * 10 + (c as int - '0' as int)
    decreases |ds|
  {
    if ds == "" {
      assert ds + [c] == [c] && [c][1..] == "";
    } else {
      assert (ds + [c])[1..] == ds[1..] + [c];
      DigitsSnoc(ds[1..], c, acc * 10 + (ds[0] as int - '0' as int));
    }
  }

  lemma {:induction false} DecimalValue(n: nat)
    ensures DigitsValue(Decimal(n), 0) == n
  {
    if n < 10 {
      assert Decimal(n)[1..] == "";
    } else {
      DecimalValue(n / 10);
      DigitsSnoc(Decimal(n / 10), Digit(n % 10), 0);
    }
  }

  lemma {:induction false} IntegerReads(ds: string, rest: string, acc: int)
    requires forall i :: 0 <= i < |ds| ==> IsDigit(ds[i])
    requires rest == "" || !IsDigit(rest[0])
    ensures IntegerOf(ds + rest, acc) == (DigitsValue(ds, acc), rest)
    decreases |ds|
  {
    if ds == "" {
      assert ds + rest == rest;
    } else {
      assert (ds + rest)[1..] == ds[1..] + rest;
      IntegerReads(ds[1..], rest, acc * 10 + (ds[0] as int - '0' as int));
    }
  }

  /** A printed number is read back. */
  lemma {:induction false} DecimalReads(n: nat, rest: string)
    requires rest == "" || !IsDigit(rest[0])
    ensures IntegerOf(Decimal(n) + rest, 0) == (n, rest)
  {
    IntegerReads(Decimal(n), rest, 0);
    DecimalValue(n);
  }

  predicate HasNo(s: string, c: char) {
    forall i :: 0 <= i < |s| ==> s[i] != c
  }

  lemma {:induction false} BeforeFirst(a: string, c: char, rest: string)
    requires HasNo(a, c) && rest != "" && rest[0] == c
    ensures Before(a + rest, c) == |a| && (a + rest)[..|a|] == a && (a + rest)[|a|..] == rest
  {
    var r := a + rest;
    assert r[|a|] == c;
    assert forall i :: 0 <= i < |a| ==> r[i] == a[i];
  }

  lemma {:induction false} Append(a: string, b: string)
    ensures StartsWith(a + b, a) && (a + b)[|a|..] == b
  {
  }

  lemma {:induction false} First(c: char, s: string)
    ensures ([c] + s)[0] == c && ([c] + s)[1..] == s
  {
  }

  lemma {:induction false} DropMore(r: string, i: nat, j: nat)
    requires i + j <= |r|
    ensures r[i..][j..] == r[i + j..] && (j > 0 ==> r[i..][0] == r[i]) && r[i..][..j] == r[i..i + j]
  {
  }

  lemma {:induction false} OtherStart(t: string, word: string)
    requires t != "" && word != "" && t[0] != word[0]
    ensures !StartsWith(t, word)
  {
    if |t| >= |word| { assert t[..|word|][0] == t[0]; }
  }

  lemma {:induction false} TailReads(code: int, p: Option<string>, loc: Location, param: string)
    ensures ParseArgument(code, p, loc, Tail(param)) == Parsed(code, Some(param), loc)
    ensures WithoutSpaces(Tail(param)) == Tail(param) && ParseLineNo(code, p, Tail(param))
        == Parsed(code, Some(param), Location("", 0))
    ensures Tail(param) == "" || Tail(param)[0] == ':'
  {
    if param != "" {
      Append(": ", param);
      OtherStart(Tail(param), AT_LINE);
    }
  }

  lemma {:induction false} FileReads(code: int, p: Option<string>, line: int, filename: string, tail: string)
    requires HasNo(filename, '"')
    ensures ParseFileName(code, p, line, IN_FILE + ("\"" + (filename + ("\"" + tail))))
        == ParseArgument(code, p, MakeLocation(filename, line), tail)
  {
    First('"', tail);
    BeforeFirst(filename, '"', "\"" + tail);
    QuotedReads(code, p, line, filename + ("\"" + tail));
  }

  lemma {:induction false} QuotedReads(code: int, p: Option<string>, line: int, z: string)
    ensures var n := Before(z, '"');
            ParseFileName(code, p, line, IN_FILE + ("\"" + z))
            == ParseArgument(code, p, MakeLocation(z[..n], line), if z[n..] == "" then "" else z[n..][1..])
  {
    var q := "\"" + z;
    var r := IN_FILE + q;
    First('"', z);
    Append(IN_FILE, q);
    assert |IN_FILE| == 8;
    DropMore(r, 8, 1);
    assert r[9..] == z && r[8] == '"';
    var n := Before(z, '"');
    DropMore(r, 9, n);
  }

  lemma {:induction false} LineReads(code: int, p: Option<string>, line: nat, rest: string)
    requires rest == "" || !IsDigit(rest[0])
    ensures ParseLineNo(code, p, AT_LINE + (Decimal(line) + rest))
            == if rest != "" && rest[0] == ' ' then ParseFileName(code, p, line, rest[1..]) else
                ParseArgument(code, p, Location("", line), rest)
  {
    DecimalReads(line, rest);
    LineNoReads(code, p, Decimal(line) + rest);
  }

  lemma {:induction false} LineNoReads(code: int, p: Option<string>, y: string)
    requires y != ""
    ensures var (line, r') := IntegerOf(y, 0);
            ParseLineNo(code, p, AT_LINE + y)
            == if r' != "" && r'[0] == ' ' then ParseFileName(code, p, line, r'[1..]) else
                ParseArgument(code, p, Location("", line), r')
  {
    assert |AT_LINE| == 8;
    Append(AT_LINE, y);
  }

  /** Line, file and parameter are read back. */
  lemma {:induction false} LocationReads(code: int, p: Option<string>, loc: Location, param: string)
    requires loc.line >= 0 && HasNo(loc.filename, '"')
    ensures ParseLineNo(code, p, AtLine(loc, Tail(param)))
        == Parsed(code, Some(param), MakeLocation(loc.filename, loc.line))
  {
    TailReads(code, p, MakeLocation(loc.filename, loc.line), param);
    if loc.filename != "" {
      First(' ', IN_FILE + ("\"" + (loc.filename + ("\"" + Tail(param)))));
      FileReads(code, p, loc.line, loc.filename, Tail(param));
    }
    LineReads(code, p, loc.line, InFile(loc.filename, Tail(param)));
  }

  lemma {:induction false} MessageReads(errstr: string, code: int, text: string, rest: string)
    requires HasNo(text, '"')
    ensures ParseEndOfMessage(errstr, code, text, "", text + ("\"" + rest))
        == ParseLineNo(code, None, WithoutSpaces(rest))
  {
    First('"', rest);
    BeforeFirst(text, '"', "\"" + rest);
    var r := text + ("\"" + rest);
    DropMore(r, |text|, 1);
    assert "" + text == text;
    assert StartsWith(text, text) by { assert text[..|text|] == text; }
  }

  /** The error of a number and a description, with anything behind them. */
  lemma {:induction false} NumberReads(code: nat, texts: int -> string, rest: string)
    requires code <= SHORT_MAX && HasNo(texts(code), '"')
    ensures Parse(Numbered(code, texts(code), rest), texts) == ParseLineNo(code, None, WithoutSpaces(rest))
  {
    var m := texts(code) + ("\"" + rest);
    var behind := " \"" + m;
    First('#', Decimal(code) + behind);
    assert behind == " " + ("\"" + m) by { assert " \"" == " " + "\""; }
    First(' ', "\"" + m);
    First('"', m);
    DecimalReads(code, behind);
    assert WithoutSpaces(behind) == "\"" + m;
    MessageReads(Numbered(code, texts(code), rest), code, texts(code), rest);
  }

  lemma {:induction false} CompileErrorReads(texts: int -> string, param: string, loc: Location)
    requires loc.line >= 0 && |loc.filename| <= FILENAME_SIZE && HasNo(loc.filename, '"')
    ensures Parse(ERROR + AtLine(loc, Tail(param)), texts) == Parsed(COMPILE_ERROR, Some(param), loc)
  {
    CompileErrorStarts(Decimal(loc.line) + InFile(loc.filename, Tail(param)), texts);
    LocationReads(COMPILE_ERROR, None, loc, param);
  }

  lemma {:induction false} CompileErrorStarts(x: string, texts: int -> string)
    requires x != ""
    ensures Parse(ERROR + (AT_LINE + x), texts) == ParseLineNo(COMPILE_ERROR, None, AT_LINE + x)
  {
    var printed := ERROR + (AT_LINE + x);
    assert printed == (ERROR + AT_LINE) + x;
    Append(ERROR + AT_LINE, x);
    Append(ERROR, AT_LINE + x);
    assert |ERROR| == 6 && |AT_LINE| == 8 && ERROR[0] == 'E';
    assert printed[0] == 'E';
  }

  lemma {:induction false} SpaceSkipped(z: string)
    requires z != "" && z[0] as int > 32
    ensures WithoutSpaces(" " + z) == z
  {
    First(' ', z);
  }

  // ---------------------------------------------------------------- what follows the head

  lemma {:induction false} Moved(a: string, b: string, t: string)
    ensures (a + b) + t == a + (b + t)
  {
  }

  lemma {:induction false} AtLineTail(loc: Location, t: string)
    requires loc.line >= 0
    ensures AtLine(loc, "") + t == AtLine(loc, t)
  {
    InFileTail(loc.filename, t);
    Moved(Decimal(loc.line), InFile(loc.filename, ""), t);
    Moved(AT_LINE, Decimal(loc.line) + InFile(loc.filename, ""), t);
  }

  lemma {:induction false} InFileTail(filename: string, t: string)
    ensures InFile(filename, "") + t == InFile(filename, t)
  {
    if filename == "" {
      assert "" + t == t;
    } else {
      var q := "\"" + "";
      assert q == "\"";
      Moved(filename, q, t);
      Moved("\"", filename + q, t);
      Moved(IN_FILE, "\"" + (filename + q), t);
      Moved(" ", IN_FILE + ("\"" + (filename + q)), t);
    }
  }

  lemma {:induction false} NumberedTail(code: nat, text: string, s: string, t: string)
    ensures Numbered(code, text, s) + t == Numbered(code, text, s + t)
  {
    Moved("\"", s, t);
    Moved(text, "\"" + s, t);
    Moved(" \"", text + ("\"" + s), t);
    Moved(Decimal(code), " \"" + (text + ("\"" + s)), t);
    Moved("#", Decimal(code) + (" \"" + (text + ("\"" + s))), t);
  }

  lemma {:induction false} HeadTail(code: nat, text: string, loc: Location, t: string)
    requires loc.line >= 0
    ensures Head(code, text, loc, "") + t == Head(code, text, loc, t)
  {
    AtLineTail(loc, t);
    Moved(ERROR, AtLine(loc, ""), t);
    Moved(" ", AtLine(loc, ""), t);
    NumberedTail(code, text, " " + AtLine(loc, ""), t);
    NumberedTail(code, text, "", t);
    assert "" + t == t;
  }

  /** Parsing a printed error gives back code, parameter and, where it was printed, the location. */
  lemma {:induction false} ErrorRoundTrip(code: nat, texts: int -> string, param: string, loc: Location)
    requires 0 < code <= 32767 && loc.line >= 0 && |loc.filename| <= 79 && HasNo(loc.filename, '"')
        && HasNo(texts(code), '"')
    requires |Head(code, texts(code), loc, "")| <= 255
    ensures Parse(Map2String(code, texts(code), param, loc), texts)
            == Parsed(code, Some(param), if code == 423 || loc.line != 0 then loc else Location("", 0))
  {
    HeadTail(code, texts(code), loc, Tail(param));
    if code == COMPILE_ERROR {
      CompileErrorReads(texts, param, loc);
    } else if loc.line != 0 {
      NumberReads(code, texts, " " + AtLine(loc, Tail(param)));
      assert AT_LINE[0] == 'a';
      SpaceSkipped(AtLine(loc, Tail(param)));
      LocationReads(code, None, loc, param);
    } else {
      NumberReads(code, texts, Tail(param));
      TailReads(code, None, Location("", 0), param);
    }
  }

  /** Other messages that begin with a place are runtime errors there; there is room for 79 characters of the file
      name. */
  lemma {:induction false} PlaceReads(texts: int -> string, param: string, loc: Location)
    requires loc.line >= 0 && HasNo(loc.filename, '"')
    ensures var name := if |loc.filename| < 80 then loc.filename else loc.filename[..79];
            Parse(Place(loc) + Tail(param), texts) == Parsed(403, Some(param), Location(name, loc.line))
  {
    AtLineIsPlace(loc);
    AtLineTail(loc, Tail(param));
    var m := AtLine(loc, Tail(param));
    assert m[0] == 'a';
    OtherStart(m, ERROR + AT_LINE);
    LocationReads(403, Some(m), loc, param);
  }

  /** A number larger than any code makes the whole message a runtime error. */
  lemma {:induction false} LargeNumberReads(n: nat, rest: string, texts: int -> string)
    requires n > 32767 && (rest == "" || !IsDigit(rest[0]))
    ensures var m := "#" + (Decimal(n) + rest); Parse(m, texts) == Parsed(403, Some(m), Location("", 0))
  {
    First('#', Decimal(n) + rest);
    DecimalReads(n, rest);
  }

  /** Neither a number nor a place at the beginning. */
  predicate IsPlain(errstr: string) {
    && errstr != "" && errstr[0] != '#' && !(|errstr| > 14 && errstr[..14] == "Error at line ")
    && !(|errstr| > 8 && errstr[..8] == "at line ")
  }

  /** Any other message is a runtime error; it is the parameter itself, or what stands behind its leading ": ". */
  lemma {:induction false} PlainReads(errstr: string, texts: int -> string)
    requires IsPlain(errstr)
    ensures Parse(errstr, texts) == Parsed(403, Some(if |errstr| >= 2 && errstr[..2] == ": " then errstr[2..] else
        errstr),
        Location("", 0))
  {
    assert ERROR + AT_LINE == "Error at line " && |ERROR + AT_LINE| == 14 && |AT_LINE| == 8;
  }

  // ---------------------------------------------------------------- the parameter taken from the message

  /** Index of the first ": ", the length if there is none. */
  function Colon(s: string): (n: nat)
    ensures n <= |s| && (n < |s| ==> StartsWith(s[n..], ": ")) && forall i :: 0 <= i < n ==> !StartsWith(s[i..], ": ")
  {
    if s == "" || StartsWith(s, ": ") then 0
    else
      assert forall i :: 1 <= i <= |s| ==> s[i..] == s[1..][i - 1..];
      1 + Colon(s[1..])
  }

  /** What an error gives out as its parameter: everything behind the first ": ". */
  function Arg(what: string): Option<string> {
    if Colon(what) == |what| then None else Some(what[Colon(what) + 2..])
  }

  /** What should be given out: an empty parameter is none. */
  function Passed(param: string): Option<string> {
    if param == "" then None else Some(param)
  }

  /** The parameter is given out as it was passed exactly if the message before it holds no ": "; not so for
      ScopeHierarchyError. */
  lemma {:induction false} ArgIsParameter(head: string, param: string)
    ensures Arg(head + Tail(param)) == Passed(param) <==> Colon(head) == |head|
  {
    var what, n := head + Tail(param), |head|;
    if param == "" {
      assert what == head;
    } else {
      assert what[n..] == Tail(param) && Tail(param)[..2] == ": " && what[n + 2..] == param;
      forall i | 0 <= i < n ensures StartsWith(what[i..], ": ") <==> StartsWith(head[i..], ": ") {
        ColonInHead(head, Tail(param), i);
      }
      assert StartsWith(what[n..], ": ") && Colon(what) <= n;
    }
  }

  lemma {:induction false} ColonInHead(head: string, tail: string, i: nat)
    requires i < |head| && |tail| > 0 && tail[0] == ':'
    ensures StartsWith((head + tail)[i..], ": ") <==> StartsWith(head[i..], ": ")
  {
    var what := head + tail;
    if i + 1 < |head| {
      assert what[i..][..2] == head[i..][..2];
    } else {
      assert what[i..][1] == ':';
    }
  }

  const SCOPE_HIERARCHY_ERROR: int := 463

  const SCOPE_HIERARCHY_TEXT: string := SCOPE_HIERARCHY + (": " + DEFINED_OVERLAPPING)

  const SCOPE_HIERARCHY: string := "Error in scope hierarchy"

  const DEFINED_OVERLAPPING: string := "Defined overlapping scopes without one including the other"

  lemma {:induction false} ColonInside(a: string, b: string)
    requires StartsWith(b, ": ")
    ensures Colon(a + b) < |a + b|
  {
    assert (a + b)[|a|..] == b;
  }

  lemma {:induction false} ColonAfter(a: string, b: string)
    requires Colon(b) < |b|
    ensures Colon(a + b) < |a + b|
  {
    assert (a + b)[|a| + Colon(b)..] == b[Colon(b)..];
  }

  lemma {:induction false} ColonBefore(a: string, b: string)
    requires Colon(a) < |a|
    ensures Colon(a + b) < |a + b|
  {
    var k := Colon(a);
    assert (a + b)[k..][..2] == a[k..][..2];
  }

  /** The description of a scope hierarchy error holds a ": ", so its parameter is never given out as it was passed. */
  lemma {:induction false} ScopeHierarchyErrorLosesParameter(param: string)
    requires param != ""
    ensures Arg(Head(SCOPE_HIERARCHY_ERROR, SCOPE_HIERARCHY_TEXT, Location("", 0), "") + Tail(param)) != Some(param)
  {
    ColonInside(SCOPE_HIERARCHY, ": " + DEFINED_OVERLAPPING);
    ColonBefore(SCOPE_HIERARCHY_TEXT, "\"" + "");
    ColonAfter(" \"", SCOPE_HIERARCHY_TEXT + ("\"" + ""));
    ColonAfter(Decimal(SCOPE_HIERARCHY_ERROR), " \"" + (SCOPE_HIERARCHY_TEXT + ("\"" + "")));
    ColonAfter("#", Decimal(SCOPE_HIERARCHY_ERROR) + (" \"" + (SCOPE_HIERARCHY_TEXT + ("\"" + ""))));
    ArgIsParameter(Head(SCOPE_HIERARCHY_ERROR, SCOPE_HIERARCHY_TEXT, Location("", 0), ""), param);
  }

  // ---------------------------------------------------------------- the parser as it runs over a message

  method ParseInteger(s: string, start: nat) returns (rt: int, si: nat)
    requires start <= |s|
    ensures start <= si <= |s| && IntegerOf(s[start..], 0) == (rt, s[si..])
  {
    rt, si := 0, start;
    while si < |s| && IsDigit(s[si])
      invariant start <= si <= |s| && IntegerOf(s[si..], rt) == IntegerOf(s[start..], 0)
    {
      assert s[si..][1..] == s[si + 1..];
      rt := rt * 10 + (s[si] as int - '0' as int);
      si := si + 1;
    }
  }

  method SkipSpaces(s: string, start: nat) returns (si: nat)
    requires start <= |s|
    ensures start <= si <= |s| && WithoutSpaces(s[start..]) == s[si..]
  {
    si := start;
    while si < |s| && s[si] as int <= 32
      invariant start <= si <= |s| && WithoutSpaces(s[si..]) == WithoutSpaces(s[start..])
    {
      assert s[si..][1..] == s[si + 1..];
      si := si + 1;
    }
  }

  method SkipUntil(s: string, start: nat, eb: char) returns (found: bool, si: nat)
    requires start <= |s|
    ensures si == start + Before(s[start..], eb) && found == (si < |s|)
  {
    si := start;
    while si < |s| && s[si] != eb
      invariant start <= si <= |s| && si + Before(s[si..], eb) == start + Before(s[start..], eb)
    {
      assert s[si..][1..] == s[si + 1..];
      si := si + 1;
    }
    found := si < |s|;
  }

  datatype State =
    | StateInit
    | StateParseMessage
    | StateParseEndOfMessage
    | StateParseLineNo
    | StateParseFileName
    | StateParseArgument
    | StateEnd

  function Rank(state: State): nat {
    match state
    case StateInit => 6
    case StateParseMessage => 5
    case StateParseEndOfMessage => 4
    case StateParseLineNo => 3
    case StateParseFileName => 2
    case StateParseArgument => 1
    case StateEnd => 0
  }

  /** What is still to come of the parse in a state. */
  ghost function Remaining(errstr: string, texts: int -> string, state: State, code: int, param: Option<string>,
                           filename: string, line: int, msgstart: nat, ei: nat): Parsed
    requires msgstart <= ei <= |errstr|
  {
    var r := errstr[ei..];
    match state
    case StateInit => Parse(errstr, texts)
    case StateParseMessage => if r == "" || r[0] != '"' then NotParsed(errstr) else
                              ParseEndOfMessage(errstr, code, texts(code), "", r[1..])
    case StateParseEndOfMessage => ParseEndOfMessage(errstr, code, texts(code), errstr[msgstart..ei], r)
    case StateParseLineNo => ParseLineNo(code, param, r)
    case StateParseFileName => ParseFileName(code, param, line, r)
    case StateParseArgument => ParseArgument(code, param, MakeLocation(filename, line), r)
    case StateEnd => Parsed(code, param, MakeLocation(filename, line))
  }

  method ParseString(s: string, start: nat) returns (rt: string, si: nat)
    requires start < |s|
    ensures start < si <= |s|
    ensures var n := Before(s[start + 1..], s[start]);
            rt == s[start + 1..][..n] && s[si..] == if s[start + 1..][n..] == "" then "" else s[start + 1..][n..][1..]
  {
    var found;
    found, si := SkipUntil(s, start + 1, s[start]);
    rt := s[start + 1..si];
    assert s[start + 1..][si - start - 1..] == s[si..];
    if found {
      si := si + 1;
    }
  }

  /** The file name behind the line number, if there is one. */
  method FileName(errstr: string, start: nat, ghost code: int, ghost param: Option<string>, ghost line: int)
    returns (filename: string, ei: nat)
    requires start <= |errstr|
    ensures start <= ei <= |errstr|
    ensures ParseFileName(code, param, line, errstr[start..]) == ParseArgument(code, param,
        MakeLocation(filename, line), errstr[ei..])
  {
    filename, ei := "", start;
    var r := errstr[start..];
    if |errstr| - start > 8 && StartsWith(r, IN_FILE) {
      ei := start + 8;
      assert errstr[ei..] == r[8..] && errstr[ei] == r[8] && errstr[ei + 1..] == r[9..];
      if errstr[ei] == '"' || errstr[ei] == '\'' {
        filename, ei := ParseString(errstr, ei);
        assert r[9..][Before(r[9..], r[8])..] == r[9 + Before(r[9..], r[8])..];
        assert r[9..][..Before(r[9..], r[8])] == r[9..9 + Before(r[9..], r[8])];
      }
    }
  }

  /** One quote, at c, in search of the end of the description. */
  method EndOfMessage(errstr: string, text: string, msgstart: nat, start: nat)
    returns (state: State, ei: nat, ghost c: nat)
    requires msgstart <= start <= |errstr|
    ensures start <= ei <= |errstr| && start <= c <= |errstr| && c == start + Before(errstr[start..], '"')
    ensures if c == |errstr| then state == StateEnd
            else if StartsWith(text, errstr[msgstart..c]) then
                 state == StateParseLineNo && errstr[ei..] == WithoutSpaces(errstr[c + 1..])
            else state == StateParseEndOfMessage && ei == c + 1
  {
    var found;
    found, ei := SkipUntil(errstr, start, '"');
    c := ei;
    if !found {
      state := StateEnd;
    } else if StartsWith(text, errstr[msgstart..ei]) {
      ei := SkipSpaces(errstr, ei + 1);
      state := StateParseLineNo;
    } else {
      ei := ei + 1;
      state := StateParseEndOfMessage;
    }
  }

  lemma {:induction false} Slices(s: string, a: nat, b: nat, c: nat)
    requires a <= b <= c <= |s|
    ensures s[a..b] + s[b..][..c - b] == s[a..c]
    ensures c < |s| ==> s[b..][c - b + 1..] == s[c + 1..] && s[a..c] + [s[c]] == s[a..c + 1]
  {
  }

  /** The parse at a quote, with the message before it and what follows it given. */
  lemma {:induction false} AtQuote(s: string, code: int, text: string, msg: string, r: string, n: nat, before: string,
                                   rest: string)
    requires n == Before(r, '"') && before == msg + r[..n] && (n < |r| ==> rest == r[n + 1..])
    ensures n == |r| ==> ParseEndOfMessage(s, code, text, msg, r) == NotParsed(s)
    ensures n < |r| && StartsWith(text, before) ==>
        ParseEndOfMessage(s, code, text, msg, r) == ParseLineNo(code, None, WithoutSpaces(rest))
    ensures n < |r| && !StartsWith(text, before) ==>
        ParseEndOfMessage(s, code, text, msg, r) == ParseEndOfMessage(s, code, text, before + "\"", rest)
  {
  }

  lemma {:induction false} QuoteStep(s: string, code: int, text: string, a: nat, b: nat, c: nat)
    requires a <= b <= c <= |s| && c == b + Before(s[b..], '"')
    ensures c == |s| ==> ParseEndOfMessage(s, code, text, s[a..b], s[b..]) == NotParsed(s)
    ensures c < |s| && StartsWith(text, s[a..c]) ==>
        ParseEndOfMessage(s, code, text, s[a..b], s[b..]) == ParseLineNo(code, None, WithoutSpaces(s[c + 1..]))
    ensures c < |s| && !StartsWith(text, s[a..c]) ==>
              ParseEndOfMessage(s, code, text, s[a..b], s[b..]) == ParseEndOfMessage(s, code, text, s[a..c + 1],
                  s[c + 1..])
  {
    Slices(s, a, b, c);
    if c < |s| {
      assert s[b..][c - b] == s[c];
      assert s[a..c] + "\"" == s[a..c + 1];
    }
    AtQuote(s, code, text, s[a..b], s[b..], c - b, s[a..c], if c < |s| then s[c + 1..] else "");
  }

  /** How the message begins. */
  method Start(errstr: string, texts: int -> string) returns (state: State, code: int, param: Option<string>, ei: nat)
    requires errstr != ""
    ensures ei <= |errstr| && state in {StateEnd, StateParseMessage, StateParseLineNo}
        && (state == StateParseMessage ==> param == None)
    ensures Remaining(errstr, texts, state, code, param, "", 0, 0, ei) == Parse(errstr, texts)
  {
    code, param, ei := OK, None, 0;
    assert errstr[0..] == errstr;
    if errstr[0] == '#' {
      var cd, si := ParseInteger(errstr, 1);
      ei := SkipSpaces(errstr, si);
      IntegerNotNegative(errstr[1..], 0);
      if cd < 0 || cd > SHORT_MAX {
        code, param, state := RUNTIME_EXCEPTION, Some(errstr), StateEnd;
      } else {
        code, state := cd, StateParseMessage;
      }
    } else {
      if |errstr| > 14 && StartsWith(errstr, ERROR + AT_LINE) {
        code, ei := COMPILE_ERROR, 6;
      } else {
        code, param := RUNTIME_EXCEPTION, Some(errstr);
      }
      state := StateParseLineNo;
    }
  }

  lemma {:induction false} IntegerNotNegative(r: string, acc: int)
    requires acc >= 0
    ensures IntegerOf(r, acc).0 >= 0
    decreases |r|
  {
    if r != "" && IsDigit(r[0]) { IntegerNotNegative(r[1..], acc * 10 + (r[0] as int - '0' as int)); }
  }

  lemma {:induction false} LineAt(code: int, param: Option<string>, r: string, line: int, s: string)
    requires |r| > 8 && StartsWith(r, AT_LINE) && IntegerOf(r[8..], 0) == (line, s)
    ensures ParseLineNo(code, param, r)
            == if s != "" && s[0] == ' ' then ParseFileName(code, param, line, s[1..]) else
                ParseArgument(code, param, Location("", line), s)
  {
  }

  /** The number, and whether a blank follows it. */
  method NumberAndBlank(errstr: string, start: nat) returns (blank: bool, line: int, ei: nat)
    requires start <= |errstr|
    ensures start <= ei <= |errstr| && line == IntegerOf(errstr[start..], 0).0
    ensures var s := IntegerOf(errstr[start..], 0).1;
        blank == (s != "" && s[0] == ' ') && errstr[ei..] == if blank then s[1..] else s
  {
    line, ei := ParseInteger(errstr, start);
    blank := ei < |errstr| && errstr[ei] == ' ';
    if blank {
      DropMore(errstr, ei, 1);
      ei := ei + 1;
    }
  }

  /** The line number, if there is one. */
  method LineNumber(errstr: string, start: nat, ghost code: int, ghost param: Option<string>)
    returns (state: State, line: int, ei: nat)
    requires start <= |errstr|
    ensures start <= ei <= |errstr| && (state == StateParseFileName || state == StateParseArgument)
    ensures ParseLineNo(code, param, errstr[start..])
            == if state == StateParseFileName then ParseFileName(code, param, line, errstr[ei..])
               else ParseArgument(code, param, MakeLocation("", line), errstr[ei..])
  {
    ghost var r := errstr[start..];
    line, ei, state := 0, start, StateParseArgument;
    if |errstr| - start > 8 && StartsWith(errstr[start..], AT_LINE) {
      var blank;
      blank, line, ei := NumberAndBlank(errstr, start + 8);
      state := if blank then StateParseFileName else StateParseArgument;
      assert r[8..] == errstr[start + 8..];
      LineAt(code, param, r, line, IntegerOf(r[8..], 0).1);
    }
  }

  /** The state of the machine: what is still to come completes the parse. */
  ghost predicate Tracked(errstr: string, texts: int -> string, state: State, code: int, param: Option<string>,
                          filename: string, line: int, msgstart: nat, ei: nat) {
    && msgstart <= ei <= |errstr| && (state == StateInit ==> ei == 0 && errstr != "")
    && (state == StateInit || state == StateParseMessage || state == StateParseEndOfMessage ==> param == None)
    && (Rank(state) >= 2 ==> filename == "" && (state != StateParseFileName ==> line == 0))
    && Remaining(errstr, texts, state, code, param, filename, line, msgstart, ei) == Parse(errstr, texts)
  }

  /** One round in search of the end of the description. */
  method QuoteRound(errstr: string, texts: int -> string, code0: int, msgstart: nat, ei0: nat)
    returns (state: State, code: int, param: Option<string>, ei: nat)
    requires Tracked(errstr, texts, StateParseEndOfMessage, code0, None, "", 0, msgstart, ei0)
    ensures Tracked(errstr, texts, state, code, param, "", 0, msgstart, ei)
    ensures state == StateEnd || state == StateParseLineNo || (state == StateParseEndOfMessage && ei > ei0)
  {
    code, param := code0, None;
    ghost var c;
    state, ei, c := EndOfMessage(errstr, texts(code), msgstart, ei0);
    QuoteStep(errstr, code, texts(code), msgstart, ei0, c);
    if state == StateEnd {
      code, param := RUNTIME_EXCEPTION, Some(errstr);
    }
  }

  /** One round of the loop in the states that read the message. */
  method MessageStep(errstr: string, texts: int -> string, state0: State, code0: int, msgstart0: nat, ei0: nat)
    returns (state: State, code: int, param: Option<string>, msgstart: nat, ei: nat)
    requires state0 in {StateInit, StateParseMessage, StateParseEndOfMessage}
        && Tracked(errstr, texts, state0, code0, None, "", 0, msgstart0, ei0)
    ensures Tracked(errstr, texts, state, code, param, "", 0, msgstart, ei) && state != StateParseFileName
    ensures Rank(state) < Rank(state0) || (state == state0 && ei > ei0)
  {
    state, code, param, msgstart, ei := state0, code0, None, msgstart0, ei0;
    if state == StateInit {
      state, code, param, ei := Start(errstr, texts);
    } else if state == StateParseMessage {
      if ei < |errstr| && errstr[ei] == '"' {
        ei := ei + 1;
        msgstart := ei;
        state := StateParseEndOfMessage;
      } else {
        code, param, state := RUNTIME_EXCEPTION, Some(errstr), StateEnd;
      }
    } else {
      state, code, param, ei := QuoteRound(errstr, texts, code0, msgstart, ei0);
    }
  }

  /** One round in the states that read the location and the parameter. */
  method LocationStep(errstr: string, texts: int -> string, state0: State, code: int, param0: Option<string>,
                      filename0: string, line0: int, msgstart: nat, ei0: nat)
    returns (state: State, param: Option<string>, filename: string, line: int, ei: nat)
    requires state0 in {StateParseLineNo, StateParseFileName, StateParseArgument}
        && Tracked(errstr, texts, state0, code, param0, filename0, line0, msgstart, ei0)
    ensures Tracked(errstr, texts, state, code, param, filename, line, msgstart, ei) && Rank(state) < Rank(state0)
  {
    state, param, filename, line, ei := state0, param0, filename0, line0, ei0;
    if state == StateParseLineNo {
      state, line, ei := LineNumber(errstr, ei, code, param);
    } else if state == StateParseFileName {
      filename, ei := FileName(errstr, ei, code, param, line);
      state := StateParseArgument;
    } else {
      if StartsWith(errstr[ei..], ": ") {
        param := Some(errstr[ei + 2..]);
      } else if ei == |errstr| {
        param := Some("");
      }
      state := StateEnd;
    }
  }

  method ParseError(errstr: string, texts: int -> string) returns (rt: Parsed)
    ensures rt == Parse(errstr, texts)
    ensures errstr == "" ==> rt == Parsed(0, None, Location("", 0))
    ensures IsPlain(errstr) ==>
        rt == Parsed(403, Some(if |errstr| >= 2 && errstr[..2] == ": " then errstr[2..] else errstr), Location("", 0))
  {
    if IsPlain(errstr) { PlainReads(errstr, texts); }
    var code, line, filename := OK, 0, "";
    var ei: nat, msgstart: nat := 0, 0;
    var param: Option<string> := None;
    var state := if errstr == "" then StateEnd else StateInit;
    while state != StateEnd
      invariant Tracked(errstr, texts, state, code, param, filename, line, msgstart, ei)
      decreases Rank(state), |errstr| - ei
    {
      if Rank(state) >= 4 {
        state, code, param, msgstart, ei := MessageStep(errstr, texts, state, code, msgstart, ei);
      } else {
        state, param, filename, line, ei := LocationStep(errstr, texts, state, code, param, filename, line, msgstart,
            ei);
      }
    }
    rt := Parsed(code, param, MakeLocation(filename, line));
  }
}
