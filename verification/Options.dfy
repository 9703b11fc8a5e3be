/** The agent's command line: options separated by underscores, each `name=value`, with
    lists of scopes separated by bars. */
module Options {
  import opened ScopeMatching

  // ---- splitting, as repeated getline does it

  function IndexOf(s: string, c: char): (i: nat)
    ensures i <= |s| && c !in s[..i] && (i < |s| ==> s[i] == c)
  {
    if s == "" || s[0] == c then 0 else 1 + IndexOf(s[1..], c)
  }

  lemma IndexIs(s: string, c: char, i: nat)
    requires i <= |s| && c !in s[..i] && (i < |s| ==> s[i] == c)
    ensures IndexOf(s, c) == i
  {
    var j := IndexOf(s, c);
    forall k | 0 <= k < i ensures s[k] != c { assert s[k] == s[..i][k]; }
    forall k | 0 <= k < j ensures s[k] != c { assert s[k] == s[..j][k]; }
  }

  /** The items read until nothing is left: an empty rest yields no item. */
  function Split(s: string, c: char): seq<string>
    decreases |s|
  {
    if s == "" then []
    else
      var i := IndexOf(s, c);
      if i == |s| then [s] else [s[..i]] + Split(s[i + 1..], c)
  }

  /** One getline: the characters up to the delimiter, which is consumed. */
  method Getline(s: string, c: char, pos: nat) returns (item: string, next: nat)
    requires pos < |s|
    ensures pos < next <= |s|
    ensures Split(s[pos..], c) == [item] + Split(s[next..], c)
  {
    var end := pos;
    while end < |s| && s[end] != c
      invariant pos <= end <= |s|
      invariant forall k :: pos <= k < end ==> s[k] != c
    {
      end := end + 1;
    }
    ghost var rest := s[pos..];
    IndexIs(rest, c, end - pos);
    item := s[pos..end];
    assert rest[..end - pos] == item;
    if end < |s| {
      next := end + 1;
      assert rest[end - pos + 1..] == s[next..];
    } else {
      next := end;
      assert item == rest && s[next..] == "";
    }
  }

  method GetlineSplit(s: string, c: char) returns (items: seq<string>)
    ensures items == Split(s, c)
  {
    items := [];
    var pos := 0;
    assert s[0..] == s && Split("", c) == [];
    hide Split;
    while pos < |s|
      invariant 0 <= pos <= |s|
      invariant items + Split(s[pos..], c) == Split(s, c)
    {
      var item, next := Getline(s, c, pos);
      MoveOver(items, item, Split(s[next..], c));
      items := items + [item];
      pos := next;
    }
    assert s[pos..] == "";
  }

  lemma MoveOver<T>(s: seq<T>, x: T, t: seq<T>)
    ensures s + ([x] + t) == s + [x] + t
  {
  }

  function Join(items: seq<string>, c: char): string {
    if items == [] then ""
    else if |items| == 1 then items[0]
    else items[0] + [c] + Join(items[1..], c)
  }

  predicate Free(items: seq<string>, c: char) {
    forall i :: 0 <= i < |items| ==> c !in items[i]
  }

  lemma SplitHead(head: string, rest: string, c: char)
    requires c !in head
    ensures Split(head + [c] + rest, c) == [head] + Split(rest, c)
  {
    var s := head + [c] + rest;
    assert s[..|head|] == head && s[|head|] == c && s[|head| + 1..] == rest;
    IndexIs(s, c, |head|);
  }

  lemma SplitLast(last: string, c: char)
    requires c !in last && last != ""
    ensures Split(last, c) == [last]
  {
    assert last[..|last|] == last;
    IndexIs(last, c, |last|);
  }

  lemma ConsEqual(x: string, s: seq<string>, t: seq<string>)
    ensures [x] + s == [x] + t <==> s == t
  {
    assert ([x] + s)[1..] == s && ([x] + t)[1..] == t;
  }

  /** Splitting gives back the joined items exactly when the last one is not empty. */
  lemma {:induction false} SplitInvertsJoin(items: seq<string>, c: char)
    requires Free(items, c)
    ensures Split(Join(items, c), c) == items <==> items == [] || items[|items| - 1] != ""
  {
    if |items| == 1 {
      if items[0] != "" { SplitLast(items[0], c); }
      assert items == [items[0]];
    } else if |items| > 1 {
      var rest := items[1..];
      SplitHead(items[0], Join(rest, c), c);
      SplitInvertsJoin(rest, c);
      ConsEqual(items[0], Split(Join(rest, c), c), rest);
      assert items == [items[0]] + rest;
    }
  }

  // ---- numbers, as the C library reads them

  predicate IsSpace(c: char) {
    c == ' ' || ('\t' <= c && c <= '\r')
  }

  predicate IsDigit(c: char) {
    '0' <= c && c <= '9'
  }

  function SkipSpace(s: string): string {
    if s != "" && IsSpace(s[0]) then SkipSpace(s[1..]) else s
  }

  /** How many digits the text starts with. */
  function DigitCount(s: string): (k: nat)
    ensures k <= |s| && forall i :: 0 <= i < k ==> IsDigit(s[i])
    ensures k < |s| ==> !IsDigit(s[k])
  {
    if s == "" || !IsDigit(s[0]) then 0 else 1 + DigitCount(s[1..])
  }

  function DigitValue(c: char): nat
    requires IsDigit(c)
  {
    c as int - '0' as int
  }

  function Natural(s: string): nat
    requires forall i :: 0 <= i < |s| ==> IsDigit(s[i])
  {
    if s == "" then 0 else 10 * Natural(s[..|s| - 1]) + DigitValue(s[|s| - 1])
  }

  datatype Number = NaN | Num(value: int)

  /** Blanks, a sign, digits, and whatever follows them; no digit, or a number that does not fit, is
      an exception. */
  function ParseInt(text: string, bound: int): Number {
    var t := SkipSpace(text);
    var signed := t != "" && (t[0] == '-' || t[0] == '+');
    var d := if signed then t[1..] else t;
    var k := DigitCount(d);
    if k == 0 then NaN
    else
      var n: int := Natural(d[..k]);
      var v := if signed && t[0] == '-' then -n else n;
      if -bound <= v < bound then Num(v) else NaN
  }

  const INT_BOUND := 0x8000_0000
  const LONG_BOUND := 0x8000_0000_0000_0000

  /** Decimal notation. */
  function Digits(n: nat): (s: string)
    ensures s != "" && forall i :: 0 <= i < |s| ==> IsDigit(s[i])
  {
    if n < 10 then [('0' as int + n) as char] else Digits(n / 10) + [('0' as int + n % 10) as char]
  }

  function Decimal(n: int): string {
    if n < 0 then "-" + Digits(-n) else Digits(n)
  }

  lemma {:induction false} NaturalInvertsDigits(n: nat)
    ensures Natural(Digits(n)) == n
  {
    if n < 10 {
      assert Digits(n)[..0] == "";
    } else {
      NaturalInvertsDigits(n / 10);
      assert Digits(n)[..|Digits(n)| - 1] == Digits(n / 10);
    }
  }

  lemma AllDigits(s: string)
    requires forall i :: 0 <= i < |s| ==> IsDigit(s[i])
    ensures DigitCount(s) == |s|
  {
  }

  /** Reading gives back exactly the numbers that fit. */
  lemma ParseInvertsDecimal(n: int, bound: int)
    ensures ParseInt(Decimal(n), bound) == if -bound <= n < bound then Num(n) else NaN
  {
    var d := Digits(if n < 0 then -n else n);
    NaturalInvertsDigits(if n < 0 then -n else n);
    AllDigits(d);
    assert d[..|d|] == d && IsDigit(d[0]);
    assert n < 0 ==> Decimal(n)[0] == '-' && Decimal(n)[1..] == d;
    assert SkipSpace(Decimal(n)) == Decimal(n);
  }

  lemma DigitsEnd(digits: string, rest: string)
    requires forall i :: 0 <= i < |digits| ==> IsDigit(digits[i])
    requires rest == "" || !IsDigit(rest[0])
    ensures DigitCount(digits + rest) == |digits| && (digits + rest)[..|digits|] == digits
  {
    var d := digits + rest;
    var k := DigitCount(d);
    assert forall i :: 0 <= i < |digits| ==> d[i] == digits[i];
    assert rest != "" ==> d[|digits|] == rest[0];
  }

  predicate NumberAhead(digits: string, rest: string, bound: int) {
    && digits != "" && (forall i :: 0 <= i < |digits| ==> IsDigit(digits[i]))
    && (rest == "" || !IsDigit(rest[0]))
    && Natural(digits) < bound
  }

  lemma UnsignedReads(text: string, digits: string, rest: string, bound: int)
    requires NumberAhead(digits, rest, bound) && SkipSpace(text) == digits + rest
    ensures ParseInt(text, bound) == Num(Natural(digits))
  {
    DigitsEnd(digits, rest);
    assert IsDigit(SkipSpace(text)[0]);
    hide Natural, DigitCount, SkipSpace;
  }

  lemma SignedReads(text: string, sign: char, digits: string, rest: string, bound: int)
    requires NumberAhead(digits, rest, bound) && (sign == '+' || sign == '-')
    requires SkipSpace(text) == [sign] + (digits + rest)
    ensures ParseInt(text, bound) == if sign == '-' then Num(0 - Natural(digits)) else Num(Natural(digits))
  {
    DigitsEnd(digits, rest);
    assert SkipSpace(text)[1..] == digits + rest;
    hide Natural, DigitCount, SkipSpace;
  }

  /** After any blanks the number is read up to the first character that is no digit, with or
      without a sign; what follows does not matter. */
  lemma NumberReads(blanks: string, sign: char, digits: string, rest: string, bound: int)
    requires (forall i :: 0 <= i < |blanks| ==> IsSpace(blanks[i])) && NumberAhead(digits, rest, bound)
    ensures ParseInt(blanks + (digits + rest), bound) == Num(Natural(digits))
    ensures sign == '+' ==> ParseInt(blanks + ([sign] + (digits + rest)), bound) == Num(Natural(digits))
    ensures sign == '-' ==> ParseInt(blanks + ([sign] + (digits + rest)), bound) == Num(0 - Natural(digits))
  {
    hide ParseInt, Natural, SkipSpace;
    assert IsDigit((digits + rest)[0]);
    Unblank(blanks, digits + rest);
    UnsignedReads(blanks + (digits + rest), digits, rest, bound);
    if sign == '+' || sign == '-' {
      Unblank(blanks, [sign] + (digits + rest));
      SignedReads(blanks + ([sign] + (digits + rest)), sign, digits, rest, bound);
    }
  }

  lemma {:induction false} Unblank(blanks: string, t: string)
    requires forall i :: 0 <= i < |blanks| ==> IsSpace(blanks[i])
    requires t != "" && !IsSpace(t[0])
    ensures SkipSpace(blanks + t) == t
  {
    if blanks == "" {
      assert blanks + t == t;
    } else {
      assert (blanks + t)[1..] == blanks[1..] + t;
      Unblank(blanks[1..], t);
    }
  }

  /** Where no number starts, none is read. */
  lemma NoNumber(t: string, bound: int)
    requires t == "" || (!IsSpace(t[0]) && !IsDigit(t[0]) && t[0] != '-' && t[0] != '+')
    ensures ParseInt(t, bound) == NaN
  {
  }

  // ---- one option

  datatype Kind =
    | Unknown | SearchScopes | IgnoredScopes | Point | EndToEndFlag | WarmupTime | FixedLength | Level | Output

  function FromString(name: string): Kind {
    if name == "pkg" || name == "search" then SearchScopes
    else if name == "ignore" then IgnoredScopes
    else if name == "progress-point" then Point
    else if name == "end-to-end" then EndToEndFlag
    else if name == "warmup" then WarmupTime
    else if name == "fix-exp" then FixedLength
    else if name == "logging-level" then Level
    else if name == "output-file" then Output
    else Unknown
  }

  /** The part before the first equals sign. */
  function NameOf(item: string): string {
    item[..IndexOf(item, '=')]
  }

  /** The part after it; without one, the search position wraps round to the whole item. */
  function ValueOf(item: string): string {
    var i := IndexOf(item, '=');
    if i == |item| then item else item[i + 1..]
  }

  /** The results file: the default, or a name with a time stamp after it. */
  datatype OutputName = Standard | Stamped(stem: string)

  datatype Settings = Settings(search: seq<string>, ignored: seq<string>,
                               progressClass: string, progressLine: int,
                               endToEnd: bool, warmup: nat, fixExp: bool,
                               loggingLevel: string, output: OutputName)

  const DEFAULTS := Settings([], [], "", -1, false, 0, false, "info", Standard)

  /** Reporting an error ends the program, and so does an exception. */
  datatype Outcome = Failed | Parsed(settings: Settings)

  const LEVELS := {"trace", "debug", "info", "warn", "error", "critical", "off"}

  /** Milliseconds to microseconds, as an unsigned 64-bit number. */
  function Micros(ms: int): (us: nat)
    ensures 0 <= ms <= 1_000_000_000_000 ==> us == 1000 * ms
    ensures us < 0x1_0000_0000_0000_0000
  {
    (ms * 1000) % 0x1_0000_0000_0000_0000
  }

  /** The file name up to its first dot. */
  function Stem(name: string): (stem: string)
    ensures stem <= name && '.' !in stem && (|stem| < |name| ==> name[|stem|] == '.')
  {
    name[..IndexOf(name, '.')]
  }

  function Interpret(st: Settings, item: string): Outcome {
    Take(st, FromString(NameOf(item)), ValueOf(item))
  }

  function Take(st: Settings, kind: Kind, value: string): Outcome {
    match kind
    case Unknown => Failed
    case SearchScopes => Parsed(st.(search := st.search + AllSlashed(Split(value, '|'))))
    case IgnoredScopes => Parsed(st.(ignored := st.ignored + AllSlashed(Split(value, '|'))))
    case Point =>
      var i := IndexOf(value, ':');
      if i == |value| then Failed
      else
        (match ParseInt(value[i + 1..], INT_BOUND)
         case NaN => Failed
         case Num(line) => Parsed(st.(progressClass := value[..i], progressLine := line)))
    case EndToEndFlag => Parsed(st.(endToEnd := true))
    case WarmupTime =>
      (match ParseInt(value, LONG_BOUND)
       case NaN => Failed
       case Num(ms) => Parsed(st.(warmup := Micros(ms))))
    case FixedLength => Parsed(st.(fixExp := true))
    case Level => if value in LEVELS then Parsed(st.(loggingLevel := value)) else Failed
    case Output => Parsed(st.(output := Stamped(Stem(value))))
  }

  function InterpretAll(st: Settings, items: seq<string>): Outcome
    decreases |items|
  {
    if items == [] then Parsed(st)
    else
      var r := Interpret(st, items[0]);
      if r.Failed? then r else InterpretAll(r.settings, items[1..])
  }

  /** Something to search, and a progress point unless the whole program is one. */
  predicate Complete(st: Settings) {
    st.search != [] && (st.endToEnd || (st.progressClass != "" && st.progressLine != -1))
  }

  function Checked(r: Outcome): Outcome {
    if r.Parsed? && !Complete(r.settings) then Failed else r
  }

  method ParseOptions(options: string) returns (outcome: Outcome)
    ensures outcome == Checked(InterpretAll(DEFAULTS, Split(options, '_')))
  {
    var items := GetlineSplit(options, '_');
    var st := DEFAULTS;
    var k := 0;
    while k < |items|
      invariant 0 <= k <= |items|
      invariant InterpretAll(DEFAULTS, items) == InterpretAll(st, items[k..])
    {
      var r := Interpret(st, items[k]);
      assert items[k..][1..] == items[k + 1..];
      if r.Failed? {
        return Failed;
      }
      st := r.settings;
      k := k + 1;
    }
    if st.search == [] || (!st.endToEnd && (st.progressClass == "" || st.progressLine == -1)) {
      return Failed;
    }
    outcome := Parsed(st);
  }

  // ---- what a list of options is meant to say

  datatype Option =
    | Pkg(scopes: seq<string>) | Search(scopes: seq<string>) | Ignore(scopes: seq<string>)
    | ProgressPoint(class_: string, line: int)
    | EndToEnd | FixExp
    | Warmup(ms: int) | LoggingLevel(text: string) | OutputFile(text: string)

  function Name(o: Option): string {
    match o
    case Pkg(_) => "pkg"
    case Search(_) => "search"
    case Ignore(_) => "ignore"
    case ProgressPoint(_, _) => "progress-point"
    case EndToEnd => "end-to-end"
    case FixExp => "fix-exp"
    case Warmup(_) => "warmup"
    case LoggingLevel(_) => "logging-level"
    case OutputFile(_) => "output-file"
  }

  function Value(o: Option): string
    requires !o.EndToEnd? && !o.FixExp?
  {
    match o
    case Pkg(ss) => Join(ss, '|')
    case Search(ss) => Join(ss, '|')
    case Ignore(ss) => Join(ss, '|')
    case ProgressPoint(c, l) => c + [':'] + Decimal(l)
    case Warmup(ms) => Decimal(ms)
    case LoggingLevel(t) => t
    case OutputFile(t) => t
  }

  function Render(o: Option): string {
    if o.EndToEnd? || o.FixExp? then Name(o) else Name(o) + ['='] + Value(o)
  }

  function Meaning(st: Settings, o: Option): Settings {
    match o
    case Pkg(ss) => st.(search := st.search + AllSlashed(ss))
    case Search(ss) => st.(search := st.search + AllSlashed(ss))
    case Ignore(ss) => st.(ignored := st.ignored + AllSlashed(ss))
    case ProgressPoint(c, l) => st.(progressClass := c, progressLine := l)
    case EndToEnd => st.(endToEnd := true)
    case FixExp => st.(fixExp := true)
    case Warmup(ms) => st.(warmup := Micros(ms))
    case LoggingLevel(t) => st.(loggingLevel := t)
    case OutputFile(t) => st.(output := Stamped(Stem(t)))
  }

  function MeaningOfAll(st: Settings, os: seq<Option>): Settings
    decreases |os|
  {
    if os == [] then st else MeaningOfAll(Meaning(st, os[0]), os[1..])
  }

  /** Scope lists must not end in an empty scope; scopes contain no bar, classes no colon; numbers
      fit their types, and levels are known. */
  predicate WellFormed(o: Option) {
    match o
    case Pkg(ss) => ScopesOk(ss)
    case Search(ss) => ScopesOk(ss)
    case Ignore(ss) => ScopesOk(ss)
    case ProgressPoint(c, l) => ':' !in c && -INT_BOUND <= l < INT_BOUND
    case Warmup(ms) => -LONG_BOUND <= ms < LONG_BOUND
    case LoggingLevel(t) => t in LEVELS
    case _ => true
  }

  predicate ScopesOk(ss: seq<string>) {
    Free(ss, '|') && (ss == [] || ss[|ss| - 1] != "")
  }

  lemma EqualsSplits(name: string, value: string)
    requires '=' !in name
    ensures NameOf(name + ['='] + value) == name && ValueOf(name + ['='] + value) == value
  {
    var item := name + ['='] + value;
    assert item[..|name|] == name && item[|name|] == '=' && item[|name| + 1..] == value;
    IndexIs(item, '=', |name|);
  }

  lemma NamesAreKnown(o: Option)
    ensures '=' !in Name(o) && Name(o) != ""
    ensures FromString(Name(o)) ==
      match o {
        case Pkg(_) => SearchScopes
        case Search(_) => SearchScopes
        case Ignore(_) => IgnoredScopes
        case ProgressPoint(_, _) => Point
        case EndToEnd => EndToEndFlag
        case FixExp => FixedLength
        case Warmup(_) => WarmupTime
        case LoggingLevel(_) => Level
        case OutputFile(_) => Output
      }
  {
  }

  lemma TakePoint(st: Settings, c: string, l: int)
    requires ':' !in c && -INT_BOUND <= l < INT_BOUND
    ensures Take(st, Point, c + [':'] + Decimal(l)) == Parsed(st.(progressClass := c, progressLine := l))
  {
    hide Decimal, ParseInt;
    var value := c + [':'] + Decimal(l);
    assert value[..|c|] == c && value[|c|] == ':' && value[|c| + 1..] == Decimal(l);
    IndexIs(value, ':', |c|);
    ParseInvertsDecimal(l, INT_BOUND);
  }

  lemma TakeValue(st: Settings, o: Option)
    requires WellFormed(o) && !o.EndToEnd? && !o.FixExp?
    ensures Take(st, FromString(Name(o)), Value(o)) == Parsed(Meaning(st, o))
  {
    NamesAreKnown(o);
    match o {
      case Pkg(ss) => SplitInvertsJoin(ss, '|');
      case Search(ss) => SplitInvertsJoin(ss, '|');
      case Ignore(ss) => SplitInvertsJoin(ss, '|');
      case ProgressPoint(c, l) =>
        TakePoint(st, c, l);
      case Warmup(ms) => ParseInvertsDecimal(ms, LONG_BOUND);
      case _ =>
    }
  }

  lemma InterpretRendered(st: Settings, o: Option)
    requires WellFormed(o)
    ensures Interpret(st, Render(o)) == Parsed(Meaning(st, o))
  {
    NamesAreKnown(o);
    if o.EndToEnd? || o.FixExp? {
      assert Name(o)[..|Name(o)|] == Name(o);
      IndexIs(Name(o), '=', |Name(o)|);
    } else {
      EqualsSplits(Name(o), Value(o));
      TakeValue(st, o);
    }
  }

  function RenderAll(os: seq<Option>): (items: seq<string>)
    ensures |items| == |os| && forall i :: 0 <= i < |os| ==> items[i] == Render(os[i])
  {
    seq(|os|, i requires 0 <= i < |os| => Render(os[i]))
  }

  lemma {:induction false} InterpretAllRendered(st: Settings, os: seq<Option>)
    requires forall i :: 0 <= i < |os| ==> WellFormed(os[i])
    ensures InterpretAll(st, RenderAll(os)) == Parsed(MeaningOfAll(st, os))
    decreases |os|
  {
    if os == [] {
    } else {
      InterpretRendered(st, os[0]);
      assert RenderAll(os)[1..] == RenderAll(os[1..]);
      InterpretAllRendered(Meaning(st, os[0]), os[1..]);
    }
  }

  /** Any list of well-formed options, written out without underscores inside them, parses to
      what it means: options in order, later ones winning, scopes prepared and those of repeated
      options concatenated; it is refused if and only if that is incomplete. */
  lemma ParseInvertsRender(os: seq<Option>)
    requires forall i :: 0 <= i < |os| ==> WellFormed(os[i]) && '_' !in Render(os[i])
    ensures var st := MeaningOfAll(DEFAULTS, os);
            Checked(InterpretAll(DEFAULTS, Split(Join(RenderAll(os), '_'), '_')))
            == if |st.search| == 0 then Failed
               else if st.endToEnd then Parsed(st)
               else if |st.progressClass| == 0 || st.progressLine == -1 then Failed
               else Parsed(st)
  {
    var items := RenderAll(os);
    if os != [] { NamesAreKnown(os[|os| - 1]); }
    SplitInvertsJoin(items, '_');
    InterpretAllRendered(DEFAULTS, os);
  }

  // ---- each option by its name on the command line

  /** `name=value`, and what the splitting makes of it. */
  predicate Reads(item: string, name: string, value: string) {
    '=' !in name && item == name + ['='] + value
  }

  lemma NamedOption(st: Settings, item: string, name: string, value: string)
    requires Reads(item, name, value)
    ensures Interpret(st, item) == Take(st, FromString(name), value)
  {
    EqualsSplits(name, value);
  }

  /** `pkg` and `search` add search scopes, `ignore` ignored ones, prepared, in order. */
  lemma ScopeOptions(st: Settings, item: string, name: string, value: string)
    requires Reads(item, name, value)
    ensures name == "pkg" || name == "search" ==>
      Interpret(st, item) == Parsed(st.(search := st.search + AllSlashed(Split(value, '|'))))
    ensures name == "ignore" ==>
      Interpret(st, item) == Parsed(st.(ignored := st.ignored + AllSlashed(Split(value, '|'))))
  {
    NamedOption(st, item, name, value);
    hide Reads, Interpret;
  }

  /** The two flags take no value into account, and need none. */
  lemma FlagOptions(st: Settings, item: string, name: string, value: string)
    requires Reads(item, name, value) || ('=' !in name && item == name)
    ensures name == "end-to-end" ==> Interpret(st, item) == Parsed(st.(endToEnd := true))
    ensures name == "fix-exp" ==> Interpret(st, item) == Parsed(st.(fixExp := true))
  {
    FlagOrNamed(st, item, name, value);
    hide Reads, Interpret;
  }

  lemma FlagOrNamed(st: Settings, item: string, name: string, value: string)
    requires Reads(item, name, value) || ('=' !in name && item == name)
    ensures Interpret(st, item) == Take(st, FromString(name), if item == name then item else value)
  {
    if item == name {
      assert name[..|name|] == name;
      IndexIs(name, '=', |name|);
    } else {
      NamedOption(st, item, name, value);
    }
  }

  lemma ColonSplits(class_: string, line: string)
    requires ':' !in class_
    ensures var value := class_ + [':'] + line;
            && IndexOf(value, ':') == |class_| < |value|
            && value[..|class_|] == class_ && value[|class_| + 1..] == line
  {
    var value := class_ + [':'] + line;
    assert value[..|class_|] == class_ && value[|class_|] == ':' && value[|class_| + 1..] == line;
    IndexIs(value, ':', |class_|);
  }

  /** A class and a line with a colon between them. */
  lemma PointOption(st: Settings, item: string, name: string, class_: string, line: string, value: string)
    requires name == "progress-point" && Reads(item, name, value)
    requires ':' !in class_ && value == class_ + [':'] + line
    ensures Interpret(st, item) ==
      match ParseInt(line, INT_BOUND)
      case NaN => Failed
      case Num(n) => Parsed(st.(progressClass := class_, progressLine := n))
  {
    NamedOption(st, item, name, value);
    ColonSplits(class_, line);
    hide ParseInt, Reads, Interpret, IndexOf;
  }

  lemma PointNeedsColon(st: Settings, item: string, name: string, value: string)
    requires name == "progress-point" && Reads(item, name, value) && ':' !in value
    ensures Interpret(st, item) == Failed
  {
    NamedOption(st, item, name, value);
    assert value[..|value|] == value;
    IndexIs(value, ':', |value|);
    hide ParseInt, Reads, Interpret, IndexOf;
  }

  /** Milliseconds become microseconds. */
  lemma WarmupOption(st: Settings, item: string, name: string, value: string, ms: nat)
    requires name == "warmup" && Reads(item, name, value)
    requires ParseInt(value, LONG_BOUND) == Num(ms) && ms <= 1_000_000_000_000
    ensures Interpret(st, item) == Parsed(st.(warmup := 1000 * ms))
  {
    NamedOption(st, item, name, value);
    hide ParseInt, Reads, Interpret;
  }

  /** Seven levels are known, and nothing else. */
  lemma LevelOption(st: Settings, item: string, name: string, value: string)
    requires name == "logging-level" && Reads(item, name, value)
    ensures Interpret(st, item) ==
      if value == "trace" || value == "debug" || value == "info" || value == "warn" || value == "error"
         || value == "critical" || value == "off"
      then Parsed(st.(loggingLevel := value)) else Failed
  {
    NamedOption(st, item, name, value);
    hide Reads, Interpret;
  }

  /** The results file is named up to the first dot. */
  lemma OutputOption(st: Settings, item: string, name: string, value: string, stem: string)
    requires name == "output-file" && Reads(item, name, value)
    requires stem <= value && '.' !in stem && (|stem| < |value| ==> value[|stem|] == '.')
    ensures Interpret(st, item) == Parsed(st.(output := Stamped(stem)))
  {
    NamedOption(st, item, name, value);
    hide Reads, Interpret;
    assert value[..|stem|] == stem;
    IndexIs(value, '.', |stem|);
  }

  /** Numbers are read as the types they end up in: 32 bits for a line, 64 for a time. */
  lemma NumbersFit(n: int)
    ensures ParseInt(Decimal(n), INT_BOUND) == Num(n) <==> -2147483648 <= n <= 2147483647
    ensures ParseInt(Decimal(n), LONG_BOUND) == Num(n) <==> -9223372036854775808 <= n <= 9223372036854775807
  {
    ParseInvertsDecimal(n, INT_BOUND);
    ParseInvertsDecimal(n, LONG_BOUND);
    hide ParseInt, Decimal;
  }

  function KindOf(o: Option): Kind {
    match o
    case Pkg(_) => SearchScopes
    case Search(_) => SearchScopes
    case Ignore(_) => IgnoredScopes
    case ProgressPoint(_, _) => Point
    case EndToEnd => EndToEndFlag
    case FixExp => FixedLength
    case Warmup(_) => WarmupTime
    case LoggingLevel(_) => Level
    case OutputFile(_) => Output
  }

  predicate Given(os: seq<Option>, k: Kind) {
    os != [] && (KindOf(os[0]) == k || Given(os[1..], k))
  }

  /** Whatever is not given stays as it was, at first without scopes, point, warmup or flags. */
  lemma {:induction false} UnsetStays(st: Settings, os: seq<Option>)
    ensures var end := MeaningOfAll(st, os);
            && (!Given(os, SearchScopes) ==> end.search == st.search)
            && (!Given(os, IgnoredScopes) ==> end.ignored == st.ignored)
            && (!Given(os, Point) ==> end.progressClass == st.progressClass && end.progressLine == st.progressLine)
            && (!Given(os, WarmupTime) ==> end.warmup == st.warmup)
    decreases |os|
  {
    if os == [] {
    } else {
      UnsetStays(Meaning(st, os[0]), os[1..]);
    }
  }

  lemma {:induction false} FlagsAreGiven(st: Settings, os: seq<Option>)
    ensures var end := MeaningOfAll(st, os);
            && end.endToEnd == (st.endToEnd || Given(os, EndToEndFlag))
            && end.fixExp == (st.fixExp || Given(os, FixedLength))
            && (!Given(os, Level) ==> end.loggingLevel == st.loggingLevel)
            && (!Given(os, Output) ==> end.output == st.output)
    decreases |os|
  {
    if os == [] {
    } else {
      FlagsAreGiven(Meaning(st, os[0]), os[1..]);
    }
  }

  lemma Defaults()
    ensures DEFAULTS.search == DEFAULTS.ignored == [] && DEFAULTS.progressClass == "" && DEFAULTS.progressLine == -1
    ensures !DEFAULTS.endToEnd && !DEFAULTS.fixExp && DEFAULTS.warmup == 0
    ensures DEFAULTS.loggingLevel == "info" && DEFAULTS.output == Standard
  {
  }

  /** Nothing else is an option. */
  lemma UnknownOption(st: Settings, item: string, name: string, value: string)
    requires Reads(item, name, value) || ('=' !in name && item == name)
    requires name !in {"pkg", "search", "ignore", "progress-point", "end-to-end", "warmup", "fix-exp",
                       "logging-level", "output-file"}
    ensures Interpret(st, item) == Failed
  {
    FlagOrNamed(st, item, name, value);
    hide Reads, Interpret;
  }
}
