/** The command-line parser of the host process. */
module RuntimeConfig {
  import opened Geometry
  import opened MachineWords

  datatype Config = Config(
    width: nat, height: nat, frameRate: int,
    startupUrl: string, sessionId: string,
    threadTuning: bool, cadenceFeedback: bool, showHelp: bool)

  const DEFAULTS := Config(1920, 1080, 60, "https://google.com/", "", true, false, false)

  // ---- Numbers, as the C library reads them (32-bit long) ---------------------------------------

  predicate IsSpace(c: char) {
    c == ' ' || '\t' <= c <= '\r'
  }

  predicate IsDigit(c: char) {
    '0' <= c <= '9'
  }

  function DigitValue(c: char): nat
    requires IsDigit(c)
  {
    c as int - '0' as int
  }

  function SkipSpaces(s: string): string {
    if s != "" && IsSpace(s[0]) then SkipSpaces(s[1..]) else s
  }

  predicate HasSign(s: string) {
    s != "" && (s[0] == '-' || s[0] == '+')
  }

  predicate AllDigits(s: string) {
    forall i :: 0 <= i < |s| ==> IsDigit(s[i])
  }

  function DigitsValue(s: string): nat
    requires AllDigits(s)
  {
    if s == "" then 0 else DigitsValue(s[..|s| - 1]) * 10 + DigitValue(s[|s| - 1])
  }

  datatype Magnitude = Magnitude(negative: bool, value: nat)

  /** The whole string as optional spaces, optional sign and at least one digit, or nothing. */
  function Numeral(s: string): Option<Magnitude> {
    var t := SkipSpaces(s);
    var digits := if HasSign(t) then t[1..] else t;
    if digits != "" && AllDigits(digits) then Some(Magnitude(HasSign(t) && t[0] == '-', DigitsValue(digits))) else None
  }

  /** strtoul: saturates above, negates modulo 2^32. */
  function ParseUInt(s: string): (r: Option<nat>)
    ensures r.Some? ==> r.value < TWO_32
  {
    match Numeral(s)
    case None => None
    case Some(m) =>
      Some(if m.value >= TWO_32 then TWO_32 - 1 else if m.negative then (TWO_32 - m.value) % TWO_32 else m.value)
  }

  /** strtol: saturates at both ends. */
  function ParseInt(s: string): (r: Option<int>)
    ensures r.Some? ==> -0x8000_0000 <= r.value < 0x8000_0000
  {
    match Numeral(s)
    case None => None
    case Some(m) =>
      var v: int := if m.negative then -(m.value as int) else m.value;
      Some(if v > 0x7FFF_FFFF then 0x7FFF_FFFF else if v < -0x8000_0000 then -0x8000_0000 else v)
  }

  /** What the C library takes for a number: white space, at most one sign, and one or more digits, and nothing else. */
  predicate IsNumeral(s: string, spaces: string, sign: string, digits: string) {
    && s == spaces + sign + digits
    && (forall i :: 0 <= i < |spaces| ==> spaces[i] as int == 32 || 9 <= spaces[i] as int <= 13)
    && (sign == "" || sign == "+" || sign == "-")
    && digits != "" && (forall i :: 0 <= i < |digits| ==> 48 <= digits[i] as int <= 57)
  }

  lemma NumeralParts(s: string, spaces: string, sign: string, digits: string)
    requires IsNumeral(s, spaces, sign, digits)
    ensures AllDigits(digits) && forall i :: 0 <= i < |spaces| ==> IsSpace(spaces[i])
  {
    forall i | 0 <= i < |digits| ensures IsDigit(digits[i]) { assert 48 <= digits[i] as int <= 57; }
    forall i | 0 <= i < |spaces| ensures IsSpace(spaces[i]) {
      assert spaces[i] as int == 32 || 9 <= spaces[i] as int <= 13;
    }
  }

  lemma {:induction false} SkipsExactly(spaces: string, rest: string)
    requires forall i :: 0 <= i < |spaces| ==> IsSpace(spaces[i])
    requires rest != "" && !IsSpace(rest[0])
    ensures SkipSpaces(spaces + rest) == rest
  {
    if spaces == "" {
      assert spaces + rest == rest;
    } else {
      assert (spaces + rest)[1..] == spaces[1..] + rest;
      SkipsExactly(spaces[1..], rest);
    }
  }

  lemma {:induction false} SkipsSome(s: string) returns (spaces: string)
    ensures s == spaces + SkipSpaces(s) && forall i :: 0 <= i < |spaces| ==> IsSpace(spaces[i])
  {
    if s != "" && IsSpace(s[0]) {
      var rest := SkipsSome(s[1..]);
      spaces := [s[0]] + rest;
    } else {
      spaces := "";
    }
  }

  lemma NumeralReads(s: string, spaces: string, sign: string, digits: string)
    requires IsNumeral(s, spaces, sign, digits)
    ensures AllDigits(digits) && Numeral(s) == Some(Magnitude(sign == "-", DigitsValue(digits)))
  {
    NumeralParts(s, spaces, sign, digits);
    var t := sign + digits;
    assert IsDigit(digits[0]);
    assert t[0] == if sign == "" then digits[0] else sign[0];
    assert s == spaces + t;
    SkipsExactly(spaces, t);
    if sign == "" {
      assert t == digits;
    } else {
      assert t[1..] == digits;
    }
  }

  lemma NumeralOnly(s: string) returns (spaces: string, sign: string, digits: string)
    requires Numeral(s).Some?
    ensures IsNumeral(s, spaces, sign, digits)
  {
    spaces := SkipsSome(s);
    var t := SkipSpaces(s);
    sign := if HasSign(t) then t[..1] else "";
    digits := if HasSign(t) then t[1..] else t;
    assert t == sign + digits;
  }

  /** The result of strtoul saturates at 2^32 - 1 and negates modulo 2^32. */
  function Unsigned(sign: string, v: int): int {
    if v >= TWO_32 then TWO_32 - 1 else if sign == "-" then (0 - v) % TWO_32 else v
  }

  /** The result of strtol saturates at both ends. */
  function Signed(sign: string, v: int): int {
    var w := if sign == "-" then 0 - v else v;
    if w > 0x7FFF_FFFF then 0x7FFF_FFFF else if w < -0x8000_0000 then -0x8000_0000 else w
  }

  lemma NumeralValue(s: string, spaces: string, sign: string, digits: string)
    requires IsNumeral(s, spaces, sign, digits)
    ensures AllDigits(digits)
    ensures ParseUInt(s) == Some(Unsigned(sign, DigitsValue(digits)))
    ensures ParseInt(s) == Some(Signed(sign, DigitsValue(digits)))
  {
    hide Numeral, IsNumeral;
    NumeralReads(s, spaces, sign, digits);
  }

  /** Exactly the numerals are read. */
  lemma NumeralsOnly(s: string)
    ensures ParseUInt(s).Some? <==> exists spaces, sign, digits :: IsNumeral(s, spaces, sign, digits)
    ensures ParseInt(s).Some? <==> exists spaces, sign, digits :: IsNumeral(s, spaces, sign, digits)
  {
    hide IsNumeral, Numeral;
    if Numeral(s).Some? {
      var spaces, sign, digits := NumeralOnly(s);
      assert IsNumeral(s, spaces, sign, digits);
    } else {
      forall spaces, sign, digits ensures !IsNumeral(s, spaces, sign, digits) {
        if IsNumeral(s, spaces, sign, digits) { NumeralReads(s, spaces, sign, digits); }
      }
    }
  }

  // ---- Arguments -------------------------------------------------------------------------------

  function IndexOf(s: string, c: char, d: char): (i: nat)
    ensures i <= |s|
    ensures i < |s| ==> s[i] == c || s[i] == d
    ensures forall j :: 0 <= j < i ==> s[j] != c && s[j] != d
  {
    if s == "" || s[0] == c || s[0] == d then 0 else 1 + IndexOf(s[1..], c, d)
  }

  function KeyOf(arg: string): string {
    arg[..IndexOf(arg, '=', '=')]
  }

  function ValueOf(arg: string): string {
    var i := IndexOf(arg, '=', '=');
    if i == |arg| then "" else arg[i + 1..]
  }

  predicate TakesValue(key: string) {
    || key == "--url" || key == "--session-id" || key == "--width" || key == "--height"
    || key == "--fps" || key == "--size"
  }

  predicate IsFlag(arg: string) {
    arg == "-h" || arg == "--help" || arg == "/?" || arg == "--no-thread-tuning" || arg == "--enable-cadence-feedback"
  }

  function AtLeastOne(n: nat): nat {
    if n < 1 then 1 else n
  }

  function ClampFps(n: int): int {
    if n < 1 then 1 else if n > 240 then 240 else n
  }

  function WithFlag(cfg: Config, arg: string): Config
    requires IsFlag(arg)
  {
    if arg == "--no-thread-tuning" then cfg.(threadTuning := false)
    else if arg == "--enable-cadence-feedback" then cfg.(cadenceFeedback := true)
    else cfg.(showHelp := true)
  }

  function WithSize(cfg: Config, v: string): Config {
    var x := IndexOf(v, 'x', 'X');
    if x == |v| then cfg
    else
      var w, h := ParseUInt(v[..x]), ParseUInt(v[x + 1..]);
      if w.Some? && h.Some? then cfg.(width := AtLeastOne(w.value), height := AtLeastOne(h.value)) else cfg
  }

  function WithValue(cfg: Config, key: string, v: string): Config
    requires TakesValue(key)
  {
    if key == "--url" then if v != "" then cfg.(startupUrl := v) else cfg
    else if key == "--session-id" then cfg.(sessionId := v)
    else if key == "--width" then
      var n := ParseUInt(v); if n.Some? then cfg.(width := AtLeastOne(n.value)) else cfg
    else if key == "--height" then
      var n := ParseUInt(v); if n.Some? then cfg.(height := AtLeastOne(n.value)) else cfg
    else if key == "--fps" then
      var n := ParseInt(v); if n.Some? then cfg.(frameRate := ClampFps(n.value)) else cfg
    else WithSize(cfg, v)
  }

  /** The configuration after the remaining arguments; a null argument reads as empty. */
  function Parse(cfg: Config, args: seq<Option<string>>): Config
    decreases |args|
  {
    if args == [] then cfg
    else
      var arg := if args[0].Some? then args[0].value else "";
      if IsFlag(arg) then Parse(WithFlag(cfg, arg), args[1..])
      else if !TakesValue(KeyOf(arg)) then Parse(cfg, args[1..])
      else if ValueOf(arg) != "" then Parse(WithValue(cfg, KeyOf(arg), ValueOf(arg)), args[1..])
      else if |args| > 1 && args[1].Some? then Parse(WithValue(cfg, KeyOf(arg), args[1].value), args[2..])
      else Parse(cfg, args[1..])
  }

  /** takeNext: the attached value, or the next argument, which is then consumed. */
  method TakeNext(argv: seq<Option<string>>, i: nat, value: string) returns (ok: bool, v: string, next: nat)
    requires i < |argv|
    ensures i <= next < |argv|
    ensures value != "" ==> ok && v == value && next == i
    ensures value == "" ==> (ok <==> i + 1 < |argv| && argv[i + 1].Some?)
    ensures value == "" && ok ==> v == argv[i + 1].value && next == i + 1
    ensures !ok ==> next == i
  {
    v, next := "", i;
    if value != "" {
      v := value;
      return true, v, next;
    }
    if i + 1 >= |argv| || argv[i + 1].None? {
      return false, v, next;
    }
    next := i + 1;
    return true, argv[next].value, next;
  }

  /** Assigns the fields of one value-taking option. */
  method ApplyValue(cfg: Config, key: string, v: string) returns (r: Config)
    requires TakesValue(key)
    ensures r == WithValue(cfg, key, v)
  {
    r := cfg;
    if key == "--url" {
      if v != "" { r := r.(startupUrl := v); }
    } else if key == "--session-id" {
      r := r.(sessionId := v);
    } else if key == "--width" {
      var n := ParseUInt(v);
      if n.Some? { r := r.(width := if n.value < 1 then 1 else n.value); }
    } else if key == "--height" {
      var n := ParseUInt(v);
      if n.Some? { r := r.(height := if n.value < 1 then 1 else n.value); }
    } else if key == "--fps" {
      var n := ParseInt(v);
      if n.Some? { r := r.(frameRate := if n.value < 1 then 1 else if n.value > 240 then 240 else n.value); }
    } else {
      var x := IndexOf(v, 'x', 'X');
      if x < |v| {
        var w, h := ParseUInt(v[..x]), ParseUInt(v[x + 1..]);
        if w.Some? && h.Some? {
          r := r.(width := if w.value < 1 then 1 else w.value);
          r := r.(height := if h.value < 1 then 1 else h.value);
        }
      }
    }
  }

  /** The loop over argv, whose index an option value advances once more. */
  method FromArgs(argv: seq<Option<string>>) returns (cfg: Config)
    ensures cfg == if argv == [] then DEFAULTS else Parse(DEFAULTS, argv[1..])
  {
    cfg := DEFAULTS;
    var i := 1;
    while i < |argv|
      invariant 1 <= i
      invariant argv != [] ==> i <= |argv| && Parse(cfg, argv[i..]) == Parse(DEFAULTS, argv[1..])
      invariant argv == [] ==> cfg == DEFAULTS
      decreases |argv| - i
    {
      ghost var here := argv[i..];
      assert here[1..] == argv[i + 1..];
      var arg := if argv[i].Some? then argv[i].value else "";
      if arg == "-h" || arg == "--help" || arg == "/?" {
        cfg := cfg.(showHelp := true);
      } else if arg == "--no-thread-tuning" {
        cfg := cfg.(threadTuning := false);
      } else if arg == "--enable-cadence-feedback" {
        cfg := cfg.(cadenceFeedback := true);
      } else {
        var key, value := KeyOf(arg), ValueOf(arg);
        if TakesValue(key) {
          var ok, v, next := TakeNext(argv, i, value);
          if ok {
            cfg := ApplyValue(cfg, key, v);
            if next == i + 1 { assert here[2..] == argv[i + 2..]; }
          }
          i := next;
        }
      }
      i := i + 1;
    }
  }

  // ---- Properties ------------------------------------------------------------------------------

  predicate Valid(cfg: Config) {
    1 <= cfg.width < TWO_32 && 1 <= cfg.height < TWO_32 && 1 <= cfg.frameRate <= 240 && cfg.startupUrl != ""
  }

  lemma WithValueKeepsValid(cfg: Config, key: string, v: string)
    requires Valid(cfg) && TakesValue(key)
    ensures Valid(WithValue(cfg, key, v))
  {}

  /** Every argument list gives a usable size, frame rate and start page. */
  lemma {:induction false} ParseKeepsValid(cfg: Config, args: seq<Option<string>>)
    requires Valid(cfg)
    ensures Valid(Parse(cfg, args))
    decreases |args|
  {
    if args != [] {
      var arg := if args[0].Some? then args[0].value else "";
      var key := KeyOf(arg);
      if IsFlag(arg) {
        ParseKeepsValid(WithFlag(cfg, arg), args[1..]);
      } else {
        var next := args[1..];
        ParseKeepsValid(cfg, next);
        if TakesValue(key) {
          WithValueKeepsValid(cfg, key, ValueOf(arg));
          ParseKeepsValid(WithValue(cfg, key, ValueOf(arg)), next);
          if |args| > 1 && args[1].Some? {
            WithValueKeepsValid(cfg, key, args[1].value);
            ParseKeepsValid(WithValue(cfg, key, args[1].value), args[2..]);
          }
        }
      }
    }
  }

  lemma SplitAtEquals(key: string, v: string)
    requires '=' !in key
    ensures KeyOf(key + "=" + v) == key && ValueOf(key + "=" + v) == v
    ensures KeyOf(key) == key && ValueOf(key) == ""
  {
    var arg := key + "=" + v;
    var i := IndexOf(arg, '=', '=');
    assert arg[|key|] == '=';
    assert forall j :: 0 <= j < |key| ==> arg[j] == key[j] && key[j] in key;
    assert i == |key|;
  }

  lemma KeysArePlain(key: string)
    requires TakesValue(key)
    ensures '=' !in key && !IsFlag(key)
  {}

  /** `--key=v` and `--key v` mean the same for every non-empty value, from any configuration and before any rest. */
  lemma AttachedOrSeparate(cfg: Config, key: string, v: string, rest: seq<Option<string>>)
    requires TakesValue(key) && v != ""
    ensures Parse(cfg, [Some(key + "=" + v)] + rest) == Parse(cfg, [Some(key), Some(v)] + rest)
    ensures Parse(cfg, [Some(key), Some(v)] + rest) == Parse(WithValue(cfg, key, v), rest)
  {
    var arg := key + "=" + v;
    KeysArePlain(key);
    SplitAtEquals(key, v);
    assert arg[|key|] == '=';
    assert !IsFlag(arg) by {
      FlagsArePlain(arg);
      assert '=' in arg;
    }
    assert ([Some(arg)] + rest)[1..] == rest;
    assert ([Some(key), Some(v)] + rest)[2..] == rest;
  }

  lemma FlagsArePlain(arg: string)
    ensures IsFlag(arg) ==> '=' !in arg
  {}

  // ---- Each option -----------------------------------------------------------------------------

  /** Without arguments the host opens Google at 1920 by 1080 and 60 frames per second. */
  lemma DefaultsAre()
    ensures var d := Parse(DEFAULTS, []);
            && d.width == 1920 && d.height == 1080 && d.frameRate == 60
            && d.startupUrl == "https://google.com/" && d.sessionId == ""
            && d.threadTuning && !d.cadenceFeedback && !d.showHelp
  {}

  /** Each text option sets its own field and nothing else; an empty start page is ignored. */
  lemma TextOptions(cfg: Config, v: string, rest: seq<Option<string>>)
    ensures Parse(cfg, [Some("--url"), Some(v)] + rest) == Parse(if v == "" then cfg else cfg.(startupUrl := v), rest)
    ensures Parse(cfg, [Some("--session-id"), Some(v)] + rest) == Parse(cfg.(sessionId := v), rest)
  {
    ParseOption(cfg, "--url", v, [Some("--url"), Some(v)] + rest, rest);
    ParseOption(cfg, "--session-id", v, [Some("--session-id"), Some(v)] + rest, rest);
  }

  /** Each number option sets its own field and nothing else, at least 1 and for the rate at most 240; what is not a
      number is ignored. */
  lemma NumberOptions(cfg: Config, v: string, rest: seq<Option<string>>)
    ensures ParseUInt(v) == None && ParseInt(v) == None ==>
              && Parse(cfg, [Some("--width"), Some(v)] + rest) == Parse(cfg, rest)
              && Parse(cfg, [Some("--height"), Some(v)] + rest) == Parse(cfg, rest)
              && Parse(cfg, [Some("--fps"), Some(v)] + rest) == Parse(cfg, rest)
    ensures ParseUInt(v).Some? ==>
              var n := if ParseUInt(v).value == 0 then 1 else ParseUInt(v).value;
              && Parse(cfg, [Some("--width"), Some(v)] + rest) == Parse(cfg.(width := n), rest)
              && Parse(cfg, [Some("--height"), Some(v)] + rest) == Parse(cfg.(height := n), rest)
    ensures ParseInt(v).Some? ==>
              var n := ParseInt(v).value;
              Parse(cfg, [Some("--fps"), Some(v)] + rest)
              == Parse(cfg.(frameRate := if n <= 0 then 1 else if n >= 241 then 240 else n), rest)
  {
    hide Parse, ParseUInt, ParseInt;
    ParseOption(cfg, "--width", v, [Some("--width"), Some(v)] + rest, rest);
    ParseOption(cfg, "--height", v, [Some("--height"), Some(v)] + rest, rest);
    ParseOption(cfg, "--fps", v, [Some("--fps"), Some(v)] + rest, rest);
  }

  lemma SplitSize(w: string, x: char, h: string)
    requires x == 'x' || x == 'X'
    requires 'x' !in w && 'X' !in w
    ensures var v := w + [x] + h; var i := IndexOf(v, 'x', 'X'); i == |w| && v[..i] == w && v[i + 1..] == h
  {
    var v := w + [x] + h;
    assert v[|w|] == x;
    assert forall j :: 0 <= j < |w| ==> v[j] == w[j] && w[j] in w;
  }

  lemma NoSize(v: string)
    requires 'x' !in v && 'X' !in v
    ensures IndexOf(v, 'x', 'X') == |v|
  {}

  /** A size is split at its first x or X; both halves must be numbers, and then both sides are set, to at least 1. */
  lemma SizeOption(cfg: Config, w: string, x: char, h: string, rest: seq<Option<string>>)
    requires x == 'x' || x == 'X'
    requires 'x' !in w && 'X' !in w
    ensures var args := [Some("--size"), Some(w + [x] + h)] + rest;
            var a, b := ParseUInt(w), ParseUInt(h);
            if a.Some? && b.Some?
            then Parse(cfg, args) == Parse(cfg.(width := if a.value == 0 then 1 else a.value,
                                                height := if b.value == 0 then 1 else b.value), rest)
            else Parse(cfg, args) == Parse(cfg, rest)
    ensures Parse(cfg, [Some("--size"), Some(w)] + rest) == Parse(cfg, rest)
  {
    hide Parse, ParseUInt, IndexOf;
    var v := w + [x] + h;
    SplitSize(w, x, h);
    NoSize(w);
    ParseOption(cfg, "--size", v, [Some("--size"), Some(v)] + rest, rest);
    ParseOption(cfg, "--size", w, [Some("--size"), Some(w)] + rest, rest);
  }

  /** Each flag sets its own field; help has three spellings. */
  lemma Flags(cfg: Config, rest: seq<Option<string>>)
    ensures Parse(cfg, [Some("-h")] + rest) == Parse(cfg.(showHelp := true), rest)
    ensures Parse(cfg, [Some("--help")] + rest) == Parse(cfg.(showHelp := true), rest)
    ensures Parse(cfg, [Some("/?")] + rest) == Parse(cfg.(showHelp := true), rest)
    ensures Parse(cfg, [Some("--no-thread-tuning")] + rest) == Parse(cfg.(threadTuning := false), rest)
    ensures Parse(cfg, [Some("--enable-cadence-feedback")] + rest) == Parse(cfg.(cadenceFeedback := true), rest)
  {
    hide Parse;
    ParseFlag(cfg, "-h", [Some("-h")] + rest, rest);
    ParseFlag(cfg, "--help", [Some("--help")] + rest, rest);
    ParseFlag(cfg, "/?", [Some("/?")] + rest, rest);
    ParseFlag(cfg, "--no-thread-tuning", [Some("--no-thread-tuning")] + rest, rest);
    ParseFlag(cfg, "--enable-cadence-feedback", [Some("--enable-cadence-feedback")] + rest, rest);
  }

  const OPTION_KEYS := ["--url", "--session-id", "--width", "--height", "--fps", "--size"]
  const FLAGS := ["-h", "--help", "/?", "--no-thread-tuning", "--enable-cadence-feedback"]

  lemma KeysAre(s: string)
    ensures s in OPTION_KEYS <==> TakesValue(s)
    ensures s in FLAGS <==> IsFlag(s)
  {}

  /** Any other argument is skipped alone, and so is a null one. */
  lemma OthersAreSkipped(cfg: Config, arg: string, rest: seq<Option<string>>)
    ensures arg !in FLAGS && KeyOf(arg) !in OPTION_KEYS ==> Parse(cfg, [Some(arg)] + rest) == Parse(cfg, rest)
    ensures Parse(cfg, [None] + rest) == Parse(cfg, rest)
  {
    hide WithValue, WithFlag;
    KeysAre(arg);
    KeysAre(KeyOf(arg));
    assert ([Some(arg)] + rest)[1..] == rest && ([None] + rest)[1..] == rest;
  }

  /** An option whose value is missing, or null, is skipped without it. */
  lemma MissingValue(cfg: Config, key: string, rest: seq<Option<string>>)
    requires key in OPTION_KEYS
    ensures Parse(cfg, [Some(key)]) == cfg
    ensures Parse(cfg, [Some(key), None] + rest) == Parse(cfg, rest)
  {
    hide WithValue, WithFlag, TakesValue, IsFlag;
    KeysAre(key);
    KeysArePlain(key);
    SplitAtEquals(key, "");
    OthersAreSkipped(cfg, key, rest);
    assert [Some(key)][1..] == [];
    assert ([Some(key), None] + rest)[1..] == [None] + rest;
  }

  // ---- Round trip ------------------------------------------------------------------------------

  function Digit(n: nat): char
    requires n < 10
  {
    '0' + n as char
  }

  function Decimal(n: nat): string {
    if n < 10 then [Digit(n)] else Decimal(n / 10) + [Digit(n % 10)]
  }

  lemma {:induction false} DecimalReads(n: nat)
    ensures Decimal(n) != "" && AllDigits(Decimal(n)) && DigitsValue(Decimal(n)) == n
  {
    if n < 10 {
      assert DigitsValue([Digit(n)][..0]) == 0;
    } else {
      DecimalReads(n / 10);
      assert Decimal(n)[..|Decimal(n)| - 1] == Decimal(n / 10);
    }
  }

  /** Plain decimal text parses to its number, up to the C library's saturation. */
  lemma DecimalParses(n: nat)
    ensures n < TWO_32 ==> ParseUInt(Decimal(n)) == Some(n)
    ensures n < 0x8000_0000 ==> ParseInt(Decimal(n)) == Some(n)
    ensures AllDigits(Decimal(n))
  {
    DecimalReads(n);
    assert IsDigit(Decimal(n)[0]);
    assert SkipSpaces(Decimal(n)) == Decimal(n);
  }

  function Render(cfg: Config): seq<Option<string>>
    requires Valid(cfg)
  {
    [Some("--url"), Some(cfg.startupUrl), Some("--session-id"), Some(cfg.sessionId),
     Some("--size"), Some(Decimal(cfg.width) + "x" + Decimal(cfg.height)),
     Some("--fps"), Some(Decimal(cfg.frameRate))]
    + (if cfg.threadTuning then [] else [Some("--no-thread-tuning")])
    + (if cfg.cadenceFeedback then [Some("--enable-cadence-feedback")] else [])
    + (if cfg.showHelp then [Some("--help")] else [])
  }

  lemma DigitsHaveNoX(s: string)
    requires AllDigits(s)
    ensures 'x' !in s && 'X' !in s
  {}

  lemma SizeParses(cfg: Config, w: nat, h: nat)
    requires 1 <= w < TWO_32 && 1 <= h < TWO_32
    ensures WithSize(cfg, Decimal(w) + "x" + Decimal(h)) == cfg.(width := w, height := h)
  {
    hide Decimal, ParseUInt, ParseInt, IndexOf;
    DecimalParses(w);
    DecimalParses(h);
    DigitsHaveNoX(Decimal(w));
    SplitSize(Decimal(w), 'x', Decimal(h));
  }

  /** One separate option with its value in front of the rest. */
  lemma ParseOption(cfg: Config, key: string, v: string, args: seq<Option<string>>, rest: seq<Option<string>>)
    requires TakesValue(key) && args == [Some(key), Some(v)] + rest
    ensures Parse(cfg, args) == Parse(WithValue(cfg, key, v), rest)
  {
    KeysArePlain(key);
    SplitAtEquals(key, v);
    assert args[2..] == rest;
  }

  lemma ParseFlag(cfg: Config, flag: string, args: seq<Option<string>>, rest: seq<Option<string>>)
    requires IsFlag(flag) && args == [Some(flag)] + rest
    ensures Parse(cfg, args) == Parse(WithFlag(cfg, flag), rest)
  {
    assert args[1..] == rest;
  }

  lemma ParseFlags(cfg: Config, target: Config)
    requires cfg == target.(threadTuning := true, cadenceFeedback := false, showHelp := false)
    ensures var tuning := if target.threadTuning then [] else [Some("--no-thread-tuning")];
            var feedback := if target.cadenceFeedback then [Some("--enable-cadence-feedback")] else [];
            var help := if target.showHelp then [Some("--help")] else [];
            Parse(cfg, tuning + feedback + help) == target
  {
    var tuning := if target.threadTuning then [] else [Some("--no-thread-tuning")];
    var feedback := if target.cadenceFeedback then [Some("--enable-cadence-feedback")] else [];
    var help := if target.showHelp then [Some("--help")] else [];
    if !target.threadTuning {
      ParseFlag(cfg, "--no-thread-tuning", tuning + feedback + help, feedback + help);
    } else {
      assert tuning + feedback + help == feedback + help;
    }
    var c1 := cfg.(threadTuning := target.threadTuning);
    if target.cadenceFeedback {
      ParseFlag(c1, "--enable-cadence-feedback", feedback + help, help);
    } else {
      assert feedback + help == help;
    }
    var c2 := c1.(cadenceFeedback := target.cadenceFeedback);
    if target.showHelp { ParseFlag(c2, "--help", help, []); }
  }

  /** Rendering any valid configuration as arguments and parsing them gives the configuration back. */
  lemma ParseUndoesRender(cfg: Config)
    requires Valid(cfg)
    ensures Parse(DEFAULTS, Render(cfg)) == cfg
  {
    hide Parse, Decimal, WithSize, ParseInt, WithFlag;
    var size, fps := Decimal(cfg.width) + "x" + Decimal(cfg.height), Decimal(cfg.frameRate);
    var flags := (if cfg.threadTuning then [] else [Some("--no-thread-tuning")])
      + (if cfg.cadenceFeedback then [Some("--enable-cadence-feedback")] else [])
      + (if cfg.showHelp then [Some("--help")] else []);
    var a3 := [Some("--fps"), Some(fps)] + flags;
    var a2 := [Some("--size"), Some(size)] + a3;
    var a1 := [Some("--session-id"), Some(cfg.sessionId)] + a2;
    var a0 := [Some("--url"), Some(cfg.startupUrl)] + a1;
    assert Render(cfg) == a0;
    var c1 := DEFAULTS.(startupUrl := cfg.startupUrl);
    var c2 := c1.(sessionId := cfg.sessionId);
    var c3 := c2.(width := cfg.width, height := cfg.height);
    SizeParses(c2, cfg.width, cfg.height);
    DecimalParses(cfg.frameRate);
    ParseOption(DEFAULTS, "--url", cfg.startupUrl, a0, a1);
    ParseOption(c1, "--session-id", cfg.sessionId, a1, a2);
    ParseOption(c2, "--size", size, a2, a3);
    ParseOption(c3, "--fps", fps, a3, flags);
    ParseFlags(c3.(frameRate := cfg.frameRate), cfg);
  }
}
