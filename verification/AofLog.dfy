/**
 The text of the append only file: printing commands (`catAppendOnlyGenericCommand`)
 and reading them back one at a time (the inner part of `loadSingleAppendOnlyFile`).
 Arguments are arbitrary byte strings.
 */
module AofLog {

  type Cmd = seq<string>

  // ----- decimal numbers

  function DigitChar(d: nat): char requires d < 10 { ('0' as int + d) as char }

  /** `ll2string` on a non-negative number. */
  function Digits(n: nat): (s: string)
    ensures s != []
  {
    if n < 10 then [DigitChar(n)] else Digits(n / 10) + [DigitChar(n % 10)]
  }

  predicate IsDigit(c: char) { '0' <= c <= '9' }

  predicate AllDigits(s: string) { forall i :: 0 <= i < |s| ==> IsDigit(s[i]) }

  /** The digits at the front of `s`, continued from `acc`. */
  function ReadDigits(s: string, acc: nat): nat {
    if s != [] && IsDigit(s[0]) then ReadDigits(s[1..], 10 * acc + (s[0] as int - '0' as int)) else acc
  }

  predicate Space(c: char) { c == ' ' || 9 <= c as int <= 13 }

  /** `atoi` and `strtol` in base ten, without their overflow. */
  function Atoi(s: string): int {
    if s != [] && Space(s[0]) then Atoi(s[1..])
    else if s != [] && s[0] == '-' then -(ReadDigits(s[1..], 0) as int)
    else if s != [] && s[0] == '+' then ReadDigits(s[1..], 0)
    else ReadDigits(s, 0)
  }

  lemma {:induction false} DigitsAreDigits(n: nat)
    ensures AllDigits(Digits(n))
  {
    if n >= 10 { DigitsAreDigits(n / 10); }
  }

  lemma {:induction false} ReadAppend(a: string, b: string, acc: nat)
    requires AllDigits(a)
    ensures ReadDigits(a + b, acc) == ReadDigits(b, ReadDigits(a, acc))
    decreases |a|
  {
    if a == [] {
      assert a + b == b;
    } else {
      assert (a + b)[1..] == a[1..] + b;
      ReadAppend(a[1..], b, 10 * acc + (a[0] as int - '0' as int));
    }
  }

  lemma ReadStops(s: string, acc: nat)
    requires s == [] || !IsDigit(s[0])
    ensures ReadDigits(s, acc) == acc
  {}

  lemma ReadOne(d: nat, acc: nat)
    requires d < 10
    ensures ReadDigits([DigitChar(d)], acc) == 10 * acc + d
  {
    assert [DigitChar(d)][1..] == [];
  }

  lemma {:induction false} ReadOfDigits(n: nat)
    ensures ReadDigits(Digits(n), 0) == n
  {
    if n < 10 {
      ReadOne(n, 0);
    } else {
      DigitsAreDigits(n / 10);
      ReadOfDigits(n / 10);
      ReadAppend(Digits(n / 10), [DigitChar(n % 10)], 0);
      ReadOne(n % 10, n / 10);
    }
  }

  /** Reading a printed number stops at the first character that is not a digit. */
  lemma AtoiOfDigits(n: nat, rest: string)
    requires rest == [] || !IsDigit(rest[0])
    ensures Atoi(Digits(n) + rest) == n
  {
    DigitsAreDigits(n);
    var s := Digits(n) + rest;
    assert s[0] == Digits(n)[0] && IsDigit(s[0]);
    ReadAppend(Digits(n), rest, 0);
    ReadOfDigits(n);
    ReadStops(rest, n);
  }

  function Pow10(k: nat): nat { if k == 0 then 1 else 10 * Pow10(k - 1) }

  lemma {:induction false} DigitsLength(n: nat, k: nat)
    requires 0 < k && n < Pow10(k)
    ensures |Digits(n)| <= k
    decreases k
  {
    if n >= 10 { DigitsLength(n / 10, k - 1); }
  }

  // ----- printing

  const CRLF := "\r\n"

  function EncodeArg(a: string): string { ['$'] + Digits(|a|) + CRLF + a + CRLF }

  function EncodeArgs(c: seq<string>): string {
    if c == [] then [] else EncodeArg(c[0]) + EncodeArgs(c[1..])
  }

  function Encode(c: Cmd): string { ['*'] + Digits(|c|) + CRLF + EncodeArgs(c) }

  /** `catAppendOnlyGenericCommand`. */
  method CatCommand(dst: string, argv: Cmd) returns (r: string)
    ensures r == dst + Encode(argv)
  {
    hide Digits, EncodeArg, EncodeArgs;
    r := dst + ['*'] + Digits(|argv|) + CRLF;
    assert argv[..0] == [];
    EncodeNone();
    ghost var head := r;
    assert head == head + [];
    for j := 0 to |argv|
      invariant r == head + EncodeArgs(argv[..j])
    {
      var o := argv[j];
      ghost var before := r;
      r := r + ['$'] + Digits(|o|) + CRLF;
      r := r + o;
      r := r + CRLF;
      ArgAppended(before, o);
      EncodeSnoc(argv, j);
      assert head + EncodeArgs(argv[..j]) + EncodeArg(o) == head + (EncodeArgs(argv[..j]) + EncodeArg(o));
    }
    assert argv[..|argv|] == argv;
    HeadIsEncode(dst, argv);
  }

  lemma EncodeNone()
    ensures EncodeArgs([]) == []
  {}

  lemma ArgAppended(before: string, o: string)
    ensures before + ['$'] + Digits(|o|) + CRLF + o + CRLF == before + EncodeArg(o)
  {
    hide Digits;
    Regroup(before, ['$'], Digits(|o|), CRLF);
    Regroup(before, ['$'] + Digits(|o|) + CRLF, o, CRLF);
  }

  lemma Regroup(a: string, b: string, c: string, d: string)
    ensures a + b + c + d == a + (b + c + d)
  {}

  lemma HeadIsEncode(dst: string, argv: Cmd)
    ensures dst + ['*'] + Digits(|argv|) + CRLF + EncodeArgs(argv) == dst + Encode(argv)
  {
    hide Digits, EncodeArgs;
  }

  lemma {:induction false} EncodeSnoc(argv: Cmd, j: nat)
    requires j < |argv|
    ensures EncodeArgs(argv[..j + 1]) == EncodeArgs(argv[..j]) + EncodeArg(argv[j])
    decreases j
  {
    hide EncodeArg;
    if j == 0 {
      assert argv[..1][1..] == [] && argv[..0] == [];
    } else {
      EncodeSnoc(argv[1..], j - 1);
      assert argv[..j + 1][1..] == argv[1..][..j];
      assert argv[..j][1..] == argv[1..][..j - 1];
    }
  }

  // ----- reading

  /** How many characters `fgets` takes from `s` with room for `room` of them. */
  function LineLength(s: string, room: nat): (n: nat)
    ensures n <= |s| && n <= room && (s != [] && room > 0 ==> n > 0)
    decreases room
  {
    if s == [] || room == 0 then 0
    else if s[0] == '\n' then 1
    else 1 + LineLength(s[1..], room - 1)
  }

  /** `AOF_ANNOTATION_LINE_MAX_LEN`. */
  const LINE_MAX: nat := 1024

  datatype Line = Eof | Line(text: string, rest: string)

  function Fgets(s: string): (l: Line)
    ensures l.Line? ==> l.text != [] && |l.rest| < |s| && s == l.text + l.rest
  {
    if s == [] then Eof
    else var n := LineLength(s, LINE_MAX - 1); Line(s[..n], s[n..])
  }

  /** One argument: `Short` is a read that ran into the end of the file, `Bad` a format error. */
  datatype Arg = Arg(value: string, after: string) | ShortArg | BadArg

  function ParseArg(s: string): (r: Arg)
    ensures r.Arg? ==> |r.after| < |s|
  {
    match Fgets(s)
    case Eof => ShortArg
    case Line(text, rest) =>
      if text[0] != '$' then BadArg
      else
        var len := Atoi(text[1..]);
        if len < 0 then BadArg
        else if len > |rest| then ShortArg
        else if len + 2 > |rest| then ShortArg
        else Arg(rest[..len], rest[len + 2..])
  }

  datatype Args = Args(values: seq<string>, after: string) | ShortArgs | BadArgs

  function ParseArgs(s: string, n: nat): (r: Args)
    ensures r.Args? ==> |r.after| <= |s| && |r.values| == n
    decreases n
  {
    if n == 0 then Args([], s)
    else match ParseArg(s)
      case ShortArg => ShortArgs
      case BadArg => BadArgs
      case Arg(value, after) =>
        match ParseArgs(after, n - 1)
        case ShortArgs => ShortArgs
        case BadArgs => BadArgs
        case Args(values, rest) => Args([value] + values, rest)
  }

  datatype Item = End | Annotation(after: string) | Command(cmd: Cmd, after: string) | Short | Bad

  /** One turn of the loading loop. */
  function ParseItem(s: string): (r: Item)
    ensures r.Annotation? || r.Command? ==> |r.after| < |s|
    ensures r.Command? ==> r.cmd != []
  {
    match Fgets(s)
    case Eof => End
    case Line(text, rest) =>
      if text[0] == '#' then Annotation(rest)
      else if text[0] != '*' then Bad
      else if |text| == 1 then (if rest == [] then Short else Bad)
      else if text[1] as int == 0 then (if rest == [] && text[|text| - 1] != '\n' then Short else Bad)
      else
        var argc := Atoi(text[1..]);
        if argc < 1 then Bad
        else match ParseArgs(rest, argc)
          case ShortArgs => Short
          case BadArgs => Bad
          case Args(values, after) => Command(values, after)
  }

  // ----- lines

  /** Sizes the machine can count. */
  const SIZE_LIMIT: nat := 0x8000_0000_0000_0000

  /** The number of arguments is an int. */
  const ARGC_LIMIT: nat := 0x8000_0000

  lemma ShortNumbers(n: nat)
    requires n < SIZE_LIMIT
    ensures |Digits(n)| <= 20
  {
    assert Pow10(5) == 100000;
    Pow10Double(5); Pow10Double(10);
    DigitsLength(n, 20);
  }

  lemma {:induction false} Pow10Add(i: nat, j: nat)
    ensures Pow10(i + j) == Pow10(i) * Pow10(j)
  {
    if i > 0 { Pow10Add(i - 1, j); }
  }

  lemma Pow10Double(k: nat)
    ensures Pow10(2 * k) == Pow10(k) * Pow10(k)
  {
    Pow10Add(k, k);
  }

  predicate NoNewline(x: string) { forall i :: 0 <= i < |x| ==> x[i] != '\n' }

  lemma {:induction false} LineWhole(x: string, rest: string, room: nat)
    requires NoNewline(x) && |x| < room
    ensures LineLength(x + ['\n'] + rest, room) == |x| + 1
    decreases |x|
  {
    var s := x + ['\n'] + rest;
    if x != [] {
      assert s[1..] == x[1..] + ['\n'] + rest;
      LineWhole(x[1..], rest, room - 1);
    }
  }

  lemma {:induction false} LineCut(x: string, room: nat)
    requires NoNewline(x) && |x| <= room
    ensures LineLength(x, room) == |x|
    decreases |x|
  {
    if x != [] { LineCut(x[1..], room - 1); }
  }

  /** A header line: a marker, a number and CRLF. */
  function Header(c: char, n: nat): string { [c] + Digits(n) + CRLF }

  lemma HeaderLine(c: char, n: nat, rest: string)
    requires n < SIZE_LIMIT && c != '\n'
    ensures Fgets(Header(c, n) + rest) == Line(Header(c, n), rest)
    ensures Header(c, n)[0] == c && |Header(c, n)| > 1 && IsDigit(Header(c, n)[1])
    ensures Atoi(Header(c, n)[1..]) == n
  {
    hide Digits, Atoi;
    ShortNumbers(n);
    DigitsAreDigits(n);
    var x := [c] + Digits(n) + ['\r'];
    assert NoNewline(x);
    assert Header(c, n) == x + ['\n'];
    LineWhole(x, rest, LINE_MAX - 1);
    assert Header(c, n) + rest == x + ['\n'] + rest;
    assert Header(c, n)[1..] == Digits(n) + CRLF;
    AtoiOfDigits(n, CRLF);
  }

  /** The front of a printed number is a printed number. */
  lemma {:induction false} DigitsFront(n: nat, d: nat) returns (m: nat)
    requires 0 < d <= |Digits(n)|
    ensures Digits(n)[..d] == Digits(m) && (n > 0 ==> m > 0)
    decreases n
  {
    if d == |Digits(n)| {
      m := n;
      assert Digits(n)[..d] == Digits(n);
    } else {
      m := DigitsFront(n / 10, d);
      assert Digits(n)[..d] == Digits(n / 10)[..d];
    }
  }

  /** A header cut before its end is read to the end of the file as a number that is not larger than needed:
      never negative, and positive if the number was and one digit is left. */
  lemma HeaderCut(c: char, n: nat, k: nat)
    requires n < SIZE_LIMIT && c != '\n' && 0 < k < |Header(c, n)|
    ensures Fgets(Header(c, n)[..k]) == Line(Header(c, n)[..k], [])
    ensures Header(c, n)[..k][0] == c && Atoi(Header(c, n)[..k][1..]) >= 0
    ensures k > 1 ==> IsDigit(Header(c, n)[..k][1])
    ensures k > 1 && n > 0 ==> Atoi(Header(c, n)[..k][1..]) > 0
  {
    hide Atoi, LineLength, Digits;
    var x := Header(c, n)[..k];
    HeaderChars(c, n, k);
    LineCut(x, LINE_MAX - 1);
    assert x[..|x|] == x && x[|x|..] == [];
    if k == 1 {
      assert x[1..] == [];
      AtoiOfNothing();
    } else {
      CutNumber(c, n, k);
    }
  }

  lemma AtoiOfNothing()
    ensures Atoi([]) == 0
  {}

  lemma HeaderChars(c: char, n: nat, k: nat)
    requires n < SIZE_LIMIT && c != '\n' && 0 < k < |Header(c, n)|
    ensures NoNewline(Header(c, n)[..k]) && k <= LINE_MAX - 1
    ensures Header(c, n)[..k][0] == c
    ensures k > 1 ==> IsDigit(Header(c, n)[..k][1])
  {
    hide Digits;
    ShortNumbers(n);
    DigitsAreDigits(n);
    var h := Header(c, n);
    assert forall i :: 0 <= i < |h| - 1 ==> h[i] == ([c] + Digits(n) + ['\r'])[i];
  }

  lemma CutNumber(c: char, n: nat, k: nat)
    requires 1 < k < |Header(c, n)|
    ensures Atoi(Header(c, n)[..k][1..]) >= 0
    ensures n > 0 ==> Atoi(Header(c, n)[..k][1..]) > 0
  {
    hide Atoi;
    var d := if k - 1 <= |Digits(n)| then k - 1 else |Digits(n)|;
    var tail := if k - 1 <= |Digits(n)| then [] else ['\r'];
    assert Header(c, n)[..k][1..] == Digits(n)[..d] + tail;
    var m := DigitsFront(n, d);
    AtoiOfDigits(m, tail);
  }

  // ----- one argument

  lemma ArgWhole(a: string, rest: string)
    requires |a| < SIZE_LIMIT
    ensures ParseArg(EncodeArg(a) + rest) == Arg(a, rest)
  {
    hide Digits, Atoi, Fgets;
    var body := a + CRLF + rest;
    assert EncodeArg(a) + rest == Header('$', |a|) + body;
    HeaderLine('$', |a|, body);
    assert body[..|a|] == a && body[|a| + 2..] == rest;
  }

  lemma ArgCut(a: string, k: nat)
    requires |a| < SIZE_LIMIT && k < |EncodeArg(a)|
    ensures ParseArg(EncodeArg(a)[..k]) == ShortArg
  {
    hide Digits, Atoi, Fgets;
    var h := Header('$', |a|);
    assert EncodeArg(a) == h + (a + CRLF);
    var s := EncodeArg(a)[..k];
    if k == 0 {
      assert s == [];
      FgetsEnd();
    } else if k < |h| {
      assert s == h[..k];
      HeaderCut('$', |a|, k);
    } else {
      var body := (a + CRLF)[..k - |h|];
      assert s == h + body;
      HeaderLine('$', |a|, body);
    }
  }

  lemma FgetsEnd()
    ensures Fgets([]) == Eof
  {}

  // ----- all arguments

  ghost predicate Sized(c: seq<string>) { |c| < ARGC_LIMIT && forall i :: 0 <= i < |c| ==> |c[i]| < SIZE_LIMIT }

  lemma {:induction false} ArgsWhole(c: seq<string>, rest: string)
    requires Sized(c)
    ensures ParseArgs(EncodeArgs(c) + rest, |c|) == Args(c, rest)
    decreases |c|
  {
    hide EncodeArg, ParseArg;
    if c == [] {
      assert EncodeArgs(c) + rest == rest;
    } else {
      var tail := EncodeArgs(c[1..]) + rest;
      assert EncodeArgs(c) + rest == EncodeArg(c[0]) + tail;
      ArgWhole(c[0], tail);
      ArgsWhole(c[1..], rest);
      assert [c[0]] + c[1..] == c;
    }
  }

  lemma {:induction false} ArgsCut(c: seq<string>, k: nat)
    requires Sized(c) && k < |EncodeArgs(c)|
    ensures ParseArgs(EncodeArgs(c)[..k], |c|) == ShortArgs
    decreases |c|
  {
    hide EncodeArg, ParseArg;
    var e := EncodeArg(c[0]);
    var s := EncodeArgs(c)[..k];
    assert EncodeArgs(c) == e + EncodeArgs(c[1..]);
    if k < |e| {
      assert s == e[..k];
      ArgCut(c[0], k);
    } else {
      var tail := EncodeArgs(c[1..])[..k - |e|];
      assert s == e + tail;
      ArgWhole(c[0], tail);
      if k - |e| < |EncodeArgs(c[1..])| { ArgsCut(c[1..], k - |e|); }
    }
  }

  // ----- one command

  ghost predicate Loggable(c: Cmd) { c != [] && Sized(c) }

  /** Reading a printed command gives it back. */
  lemma CommandWhole(c: Cmd, rest: string)
    requires Loggable(c)
    ensures ParseItem(Encode(c) + rest) == Command(c, rest)
  {
    hide Digits, Atoi, Fgets, ParseArgs, EncodeArgs;
    var body := EncodeArgs(c) + rest;
    assert Encode(c) + rest == Header('*', |c|) + body;
    HeaderLine('*', |c|, body);
    ArgsWhole(c, rest);
  }

  /** A header line at the end of the file leaves no arguments to read. */
  lemma CutItem(s: string)
    requires Fgets(s) == Line(s, []) && s[0] == '*'
    requires |s| > 1 ==> IsDigit(s[1]) && Atoi(s[1..]) > 0
    ensures ParseItem(s) == Short
  {
    hide Atoi, Fgets;
    if |s| > 1 {
      FgetsEnd();
      assert ParseArg([]) == ShortArg;
    }
  }

  /** A command cut anywhere inside is a short read, never a wrong command or a format error. */
  lemma CommandCut(c: Cmd, k: nat)
    requires Loggable(c) && 0 < k < |Encode(c)|
    ensures ParseItem(Encode(c)[..k]) == Short
  {
    hide Digits, Atoi, Fgets, ParseArgs, EncodeArgs;
    var h := Header('*', |c|);
    assert Encode(c) == h + EncodeArgs(c);
    var s := Encode(c)[..k];
    if k < |h| {
      assert s == h[..k];
      HeaderCut('*', |c|, k);
      CutItem(s);
    } else {
      var body := EncodeArgs(c)[..k - |h|];
      assert s == h + body;
      HeaderLine('*', |c|, body);
      ArgsCut(c, k - |h|);
    }
  }
}
