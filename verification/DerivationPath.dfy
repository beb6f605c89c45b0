/** Hierarchical deterministic wallet paths (chain/accounts/hd.go): the parser for what users type and the
    printer of the canonical form. */
module DerivationPath {

  datatype Result<T> = Ok(value: T) | Err(error: Error)

  datatype Error = AmbiguousPath | EmptyPath | InvalidComponent | OutOfRange

  type Path = seq<nat>

  const HARDENED: nat := 0x8000_0000
  const MAX_UINT32: nat := 0xFFFF_FFFF

  /** m/44'/60'/0'/0, the root relative paths are appended to. */
  const DEFAULT_ROOT: Path := [HARDENED + 44, HARDENED + 60, HARDENED + 0, 0]

  // ---------------------------------------------------------------- text

  predicate IsSpace(c: char) {
    var n := c as int;
    || 9 <= n <= 13 || n == 32 || n == 0x85 || n == 0xA0 || n == 0x1680 || 0x2000 <= n <= 0x200A
    || n == 0x2028 || n == 0x2029 || n == 0x202F || n == 0x205F || n == 0x3000
  }

  /** These 25 characters and no others are white space. */
  lemma SpaceIff(c: char)
    ensures IsSpace(c) <==>
              c as int in {9, 10, 11, 12, 13, 32, 133, 160, 5760, 8192, 8193, 8194, 8195, 8196, 8197, 8198, 8199, 8200, 8201, 8202,
                           8232, 8233, 8239, 8287, 12288}
  {}

  function TrimLeft(s: string): string { if |s| > 0 && IsSpace(s[0]) then TrimLeft(s[1..]) else s }

  function TrimRight(s: string): string { if |s| > 0 && IsSpace(s[|s| - 1]) then TrimRight(s[..|s| - 1]) else s }

  function TrimSpace(s: string): string { TrimRight(TrimLeft(s)) }

  /** The parts between the separators; there is always at least one. */
  function Split(s: string, sep: char): (parts: seq<string>)
    ensures |parts| > 0
  {
    if |s| == 0 then [[]]
    else if s[0] == sep then [[]] + Split(s[1..], sep)
    else
      var parts := Split(s[1..], sep);
      [[s[0]] + parts[0]] + parts[1..]
  }

  // ---------------------------------------------------------------- numbers

  function DigitOf(c: char): Result<nat> {
    if '0' <= c <= '9' then Ok((c as int - '0' as int) as nat)
    else if 'a' <= c <= 'z' then Ok((c as int - 'a' as int) as nat + 10)
    else if 'A' <= c <= 'Z' then Ok((c as int - 'A' as int) as nat + 10)
    else Err(InvalidComponent)
  }

  predicate IsDigit(c: char, base: nat) { DigitOf(c).Ok? && DigitOf(c).value < base }

  /** All of `s` as digits of the base; no digits is no number. */
  function Digits(s: string, base: nat): Result<nat> {
    if |s| == 0 then Err(InvalidComponent)
    else if |s| == 1 then (if IsDigit(s[0], base) then Ok(DigitOf(s[0]).value) else Err(InvalidComponent))
    else
      var high := Digits(s[..|s| - 1], base);
      if high.Err? || !IsDigit(s[|s| - 1], base) then Err(InvalidComponent) else Ok(high.value * base + DigitOf(s[|s| - 1]).value)
  }

  /** big.Int SetString in base 0: the prefix chooses hexadecimal, binary or octal. */
  function Unsigned(s: string): Result<nat> {
    if |s| >= 2 && s[0] == '0' then
      if s[1] == 'x' || s[1] == 'X' then Digits(s[2..], 16)
      else if s[1] == 'b' || s[1] == 'B' then Digits(s[2..], 2)
      else Digits(s[1..], 8)
    else Digits(s, 10)
  }

  function Signed(negative: bool, n: int): int { if negative then -n else n }

  function Number(s: string): Result<int> {
    if |s| > 0 && (s[0] == '-' || s[0] == '+') then
      var n := Unsigned(s[1..]);
      if n.Err? then Err(n.error) else Ok(Signed(s[0] == '-', n.value))
    else
      var n := Unsigned(s);
      if n.Err? then Err(n.error) else Ok(n.value)
  }

  // ---------------------------------------------------------------- parsing

  predicate IsHardened(s: string) { |s| > 0 && s[|s| - 1] == '\'' }

  function Component(raw: string): (r: Result<nat>)
    ensures r.Ok? ==> r.value <= MAX_UINT32
  {
    var s := TrimSpace(raw);
    var base := if IsHardened(s) then HARDENED else 0;
    var number := Number(if IsHardened(s) then TrimSpace(s[..|s| - 1]) else s);
    if number.Err? then Err(InvalidComponent)
    else if number.value < 0 || number.value > MAX_UINT32 - base then Err(OutOfRange)
    else Ok(base + number.value)
  }

  /** The components in order; the first bad one decides the error. */
  function Components(raw: seq<string>): (r: Result<Path>)
    ensures r.Ok? ==> |r.value| == |raw| && forall i :: 0 <= i < |r.value| ==> r.value[i] <= MAX_UINT32
  {
    if |raw| == 0 then Ok([])
    else
      var front := Components(raw[..|raw| - 1]);
      if front.Err? then front
      else
        var last := Component(raw[|raw| - 1]);
        if last.Err? then Err(last.error) else Ok(front.value + [last.value])
  }

  function Parse(path: string): Result<Path> {
    var parts := Split(path, '/');
    var first := TrimSpace(parts[0]);
    if first == "" then Err(AmbiguousPath)
    else if first == "m" then
      if |parts| == 1 then Err(EmptyPath) else Components(parts[1..])
    else
      var rest := Components(parts);
      if rest.Err? then rest else Ok(DEFAULT_ROOT + rest.value)
  }

  method ParseDerivationPath(path: string) returns (r: Result<Path>)
    ensures r == Parse(path)
  {
    hide Component, TrimSpace, Split;
    var components := Split(path, '/');
    var result: Path := [];
    var first := TrimSpace(components[0]);
    if first == "" { return Err(AmbiguousPath); }
    if first == "m" {
      components := components[1..];
    } else {
      result := DEFAULT_ROOT;
    }
    if |components| == 0 { return Err(EmptyPath); }
    ghost var root := result;
    var i := 0;
    while i < |components|
      invariant 0 <= i <= |components|
      invariant Components(components[..i]).Ok? && result == root + Components(components[..i]).value
    {
      assert components[..i + 1][..i] == components[..i];
      var c := Component(components[i]);
      if c.Err? {
        ErrStays(components, i);
        return Err(c.error);
      }
      result := result + [c.value];
      i := i + 1;
    }
    assert components[..|components|] == components;
    assert root == [] ==> result == Components(components).value;
    r := Ok(result);
  }

  lemma {:induction false} ErrStaysTo(raw: seq<string>, i: nat, k: nat)
    requires i < k <= |raw| && Components(raw[..i]).Ok? && Component(raw[i]).Err?
    ensures Components(raw[..k]) == Err(Component(raw[i]).error)
  {
    hide Component;
    assert raw[..k][..k - 1] == raw[..k - 1];
    if i < k - 1 { ErrStaysTo(raw, i, k - 1); }
  }

  lemma ErrStays(raw: seq<string>, i: nat)
    requires i < |raw| && Components(raw[..i]).Ok? && Component(raw[i]).Err?
    ensures Components(raw) == Err(Component(raw[i]).error)
  {
    ErrStaysTo(raw, i, |raw|);
    assert raw[..|raw|] == raw;
  }

  // ---------------------------------------------------------------- printing

  function Decimal(n: nat): (s: string)
    ensures |s| > 0
  {
    if n < 10 then ['0' + n as char] else Decimal(n / 10) + ['0' + (n % 10) as char]
  }

  function Show(c: nat): string { if c >= HARDENED then Decimal(c - HARDENED) + "'" else Decimal(c) }

  function Print(path: Path): string {
    if |path| == 0 then "m" else Print(path[..|path| - 1]) + "/" + Show(path[|path| - 1])
  }

  method String(path: Path) returns (s: string)
    ensures s == Print(path)
  {
    s := "m";
    var i := 0;
    while i < |path|
      invariant 0 <= i <= |path| && s == Print(path[..i])
    {
      var component, hardened := path[i], false;
      if component >= HARDENED { component, hardened := component - HARDENED, true; }
      assert path[..i + 1][..i] == path[..i];
      ghost var before := s;
      s := s + "/" + Decimal(component);
      if hardened { s := s + "'"; }
      assert s == before + "/" + Show(path[i]);
      i := i + 1;
    }
    assert path[..|path|] == path;
  }

  // ---------------------------------------------------------------- reading back a number

  /** Only decimal digits, and a leading zero only for zero itself. */
  lemma {:induction false} DecimalShape(n: nat)
    ensures forall i :: 0 <= i < |Decimal(n)| ==> '0' <= Decimal(n)[i] <= '9'
    ensures n > 0 ==> Decimal(n)[0] != '0'
    ensures n < 10 ==> |Decimal(n)| == 1
    decreases n
  {
    if n >= 10 { DecimalShape(n / 10); }
  }

  lemma DigitRead(d: nat)
    requires d < 10
    ensures IsDigit('0' + d as char, 10) && DigitOf('0' + d as char).value == d
  {}

  lemma {:induction false} DecimalRead(n: nat)
    ensures Digits(Decimal(n), 10) == Ok(n)
    decreases n
  {
    if n < 10 {
      DigitRead(n);
    } else {
      var high, last := Decimal(n / 10), '0' + (n % 10) as char;
      DigitRead(n % 10);
      DecimalRead(n / 10);
      assert Decimal(n)[..|Decimal(n)| - 1] == high;
      assert n == n / 10 * 10 + n % 10;
    }
  }

  lemma NumberRead(n: nat)
    ensures Number(Decimal(n)) == Ok(n)
  {
    hide Digits, Decimal, DigitOf;
    DecimalShape(n);
    DecimalRead(n);
  }

  lemma NoTrim(s: string)
    requires |s| > 0 && !IsSpace(s[0]) && !IsSpace(s[|s| - 1])
    ensures TrimSpace(s) == s
  {}

  /** Reading back one component: hardened ones come back at or above 2^31. */
  lemma ComponentRead(c: nat)
    requires c <= MAX_UINT32
    ensures Component(Show(c)) == Ok(c)
    ensures forall i :: 0 <= i < |Show(c)| ==> Show(c)[i] != '/'
  {
    hide Decimal, Number, TrimSpace;
    var n := if c >= HARDENED then c - HARDENED else c;
    DecimalShape(n);
    NumberRead(n);
    var d := Decimal(n);
    NoTrim(d);
    NoTrim(Show(c));
    if c >= HARDENED { assert Show(c)[..|Show(c)| - 1] == d; }
  }

  // ---------------------------------------------------------------- reading back a path

  lemma {:induction false} SplitWhole(s: string, sep: char)
    requires forall i :: 0 <= i < |s| ==> s[i] != sep
    ensures Split(s, sep) == [s]
  {
    if |s| > 0 {
      SplitWhole(s[1..], sep);
      assert [s[0]] + s[1..] == s;
    }
  }

  /** A separator and a part without one add one part. */
  lemma {:induction false} SplitAppend(s: string, t: string, sep: char)
    requires forall i :: 0 <= i < |t| ==> t[i] != sep
    ensures Split(s + [sep] + t, sep) == Split(s, sep) + [t]
  {
    var u := s + [sep] + t;
    if |s| == 0 {
      assert u[1..] == t;
      SplitWhole(t, sep);
    } else {
      assert u[1..] == s[1..] + [sep] + t;
      SplitAppend(s[1..], t, sep);
    }
  }

  lemma {:induction false} SplitPrinted(path: Path)
    requires forall i :: 0 <= i < |path| ==> path[i] <= MAX_UINT32
    ensures Split(Print(path), '/') == ["m"] + Shown(path)
  {
    hide Show, Split;
    if |path| == 0 {
      SplitWhole("m", '/');
    } else {
      var front, last := path[..|path| - 1], path[|path| - 1];
      SplitPrinted(front);
      ComponentRead(last);
      SplitAppend(Print(front), Show(last), '/');
      assert Print(path) == Print(front) + ['/'] + Show(last);
    }
  }

  function Shown(path: Path): seq<string> { if |path| == 0 then [] else Shown(path[..|path| - 1]) + [Show(path[|path| - 1])] }

  lemma {:induction false} ComponentsRead(path: Path)
    requires forall i :: 0 <= i < |path| ==> path[i] <= MAX_UINT32
    ensures |Shown(path)| == |path| && Components(Shown(path)) == Ok(path)
  {
    hide Component, Show;
    if |path| > 0 {
      var front, last := path[..|path| - 1], path[|path| - 1];
      ComponentsRead(front);
      ComponentRead(last);
      assert Shown(path)[..|Shown(path)| - 1] == Shown(front);
      assert path == front + [last];
    }
  }

  /** Every nonempty path of 32-bit components survives printing and parsing. */
  lemma RoundTrip(path: Path)
    requires |path| > 0 && forall i :: 0 <= i < |path| ==> path[i] <= MAX_UINT32
    ensures Parse(Print(path)) == Ok(path)
  {
    hide Component, Components, Split, Print, Shown;
    SplitPrinted(path);
    ComponentsRead(path);
    var parts := ["m"] + Shown(path);
    NoTrim("m");
    assert parts[1..] == Shown(path);
  }

  /** What was parsed once is a path of 32-bit components, and is parsed again from its canonical form. */
  lemma ParsePrintParse(s: string)
    requires Parse(s).Ok?
    ensures |Parse(s).value| > 0 && forall i :: 0 <= i < |Parse(s).value| ==> Parse(s).value[i] <= MAX_UINT32
    ensures Parse(Print(Parse(s).value)) == Parse(s)
  {
    hide Component, Print, Split;
    RoundTrip(Parse(s).value);
  }

  /** The empty path is the only one that is lost: its canonical form is refused. */
  lemma RoundTripIff(path: Path)
    requires forall i :: 0 <= i < |path| ==> path[i] <= MAX_UINT32
    ensures Parse(Print(path)) == Ok(path) <==> path != []
  {
    if path == [] {
      SplitWhole("m", '/');
      NoTrim("m");
    } else {
      RoundTrip(path);
    }
  }

  // ---------------------------------------------------------------- relative paths

  /** The canonical form without its prefix. */
  function Relative(path: Path): (s: string)
    requires |path| > 0
  {
    if |path| == 1 then Show(path[0]) else Relative(path[..|path| - 1]) + "/" + Show(path[|path| - 1])
  }

  lemma {:induction false} SplitRelative(path: Path)
    requires |path| > 0 && forall i :: 0 <= i < |path| ==> path[i] <= MAX_UINT32
    ensures Split(Relative(path), '/') == Shown(path)
  {
    hide Show, Split;
    var front, last := path[..|path| - 1], path[|path| - 1];
    ComponentRead(last);
    if |path| == 1 {
      SplitWhole(Show(last), '/');
      assert Shown(front) == [];
    } else {
      SplitRelative(front);
      SplitAppend(Relative(front), Show(last), '/');
      assert Relative(path) == Relative(front) + ['/'] + Show(last);
    }
  }

  lemma {:induction false} FirstShown(path: Path)
    requires |path| > 0
    ensures |Shown(path)| > 0 && Shown(path)[0] == Show(path[0])
  {
    if |path| > 1 { FirstShown(path[..|path| - 1]); }
  }

  /** A path typed without the prefix is read below the default root. */
  lemma RelativeRead(path: Path)
    requires |path| > 0 && forall i :: 0 <= i < |path| ==> path[i] <= MAX_UINT32
    ensures Parse(Relative(path)) == Ok(DEFAULT_ROOT + path)
  {
    hide Component, Components, Split, Relative, Shown, Show, TrimSpace;
    SplitRelative(path);
    ComponentsRead(path);
    FirstShown(path);
    ShownPlain(path[0]);
  }

  lemma ShownPlain(c: nat)
    ensures TrimSpace(Show(c)) == Show(c) && Show(c) != "" && Show(c) != "m"
  {
    hide Decimal, TrimSpace;
    DecimalShape(if c >= HARDENED then c - HARDENED else c);
    NoTrim(Show(c));
    assert '0' <= Show(c)[0] <= '9';
  }

  // ---------------------------------------------------------------- whitespace

  ghost predicate Blank(s: string) { forall i :: 0 <= i < |s| ==> IsSpace(s[i]) }

  lemma {:induction false} LeftGone(left: string, s: string)
    requires Blank(left)
    ensures TrimLeft(left + s) == TrimLeft(s)
  {
    if |left| == 0 {
      assert left + s == s;
    } else {
      assert (left + s)[1..] == left[1..] + s;
      LeftGone(left[1..], s);
    }
  }

  lemma {:induction false} RightGone(s: string, right: string)
    requires Blank(right)
    ensures TrimRight(s + right) == TrimRight(s)
  {
    if |right| == 0 {
      assert s + right == s;
    } else {
      assert (s + right)[..|s + right| - 1] == s + right[..|right| - 1];
      RightGone(s, right[..|right| - 1]);
    }
  }

  lemma {:induction false} LeftThrough(s: string, right: string)
    requires Blank(right)
    ensures TrimRight(TrimLeft(s + right)) == TrimRight(TrimLeft(s))
  {
    if |s| == 0 {
      assert s + right == right + [];
      LeftGone(right, []);
    } else if IsSpace(s[0]) {
      assert (s + right)[1..] == s[1..] + right;
      LeftThrough(s[1..], right);
    } else {
      RightGone(s, right);
    }
  }

  /** White space around a component does not matter. */
  lemma SpaceIgnored(left: string, s: string, right: string)
    requires Blank(left) && Blank(right)
    ensures Component(left + s + right) == Component(s)
  {
    hide Number, TrimLeft, TrimRight;
    assert left + s + right == left + (s + right);
    LeftGone(left, s + right);
    LeftThrough(s, right);
    assert TrimSpace(left + s + right) == TrimSpace(s);
  }

  // ---------------------------------------------------------------- hexadecimal numbers

  function HexDigit(d: nat): char
    requires d < 16
  {
    if d < 10 then '0' + d as char else 'a' + (d - 10) as char
  }

  function Hex(n: nat): (s: string)
    ensures |s| > 0
  {
    if n < 16 then [HexDigit(n)] else Hex(n / 16) + [HexDigit(n % 16)]
  }

  lemma HexDigitRead(d: nat)
    requires d < 16
    ensures IsDigit(HexDigit(d), 16) && DigitOf(HexDigit(d)).value == d
  {}

  lemma {:induction false} HexDigitsRead(n: nat)
    ensures Digits(Hex(n), 16) == Ok(n)
    decreases n
  {
    if n < 16 {
      HexDigitRead(n);
    } else {
      HexDigitRead(n % 16);
      HexDigitsRead(n / 16);
      assert Hex(n)[..|Hex(n)| - 1] == Hex(n / 16);
      assert n == n / 16 * 16 + n % 16;
    }
  }

  /** Components may be written in hexadecimal. */
  lemma HexRead(n: nat)
    ensures Number("0x" + Hex(n)) == Ok(n)
  {
    hide Digits, Hex;
    HexDigitsRead(n);
    assert ("0x" + Hex(n))[2..] == Hex(n);
  }

  // ---------------------------------------------------------------- what is a number, and which one

  ghost function Power(base: nat, k: nat): nat { if k == 0 then 1 else base * Power(base, k - 1) }

  /** The digits weighed by their places. */
  ghost function Place(ds: seq<nat>, base: nat): nat {
    if |ds| == 0 then 0 else ds[0] * Power(base, |ds| - 1) + Place(ds[1..], base)
  }

  ghost function Values(s: string): seq<nat> { seq(|s|, i requires 0 <= i < |s| => if DigitOf(s[i]).Ok? then DigitOf(s[i]).value else 0) }

  lemma {:induction false} PlaceLast(ds: seq<nat>, d: nat, base: nat)
    ensures Place(ds + [d], base) == Place(ds, base) * base + d
    decreases |ds|
  {
    var all := ds + [d];
    if |ds| == 0 {
      assert all[1..] == [] && Power(base, 0) == 1 && Place([], base) == 0;
    } else {
      PlaceLast(ds[1..], d, base);
      assert all[1..] == ds[1..] + [d];
      assert Power(base, |ds|) == base * Power(base, |ds| - 1);
      hide Power, Place;
      Shift(ds[0], base, Power(base, |ds| - 1), Place(ds[1..], base));
      PlaceFirst(ds, base);
      PlaceFirst(all, base);
    }
  }

  lemma PlaceFirst(ds: seq<nat>, base: nat)
    requires |ds| > 0
    ensures Place(ds, base) == ds[0] * Power(base, |ds| - 1) + Place(ds[1..], base)
  {}

  lemma Shift(d: nat, base: nat, p: nat, rest: nat)
    ensures d * (base * p) + rest * base == (d * p + rest) * base
  {}

  /** A text is a number of the base exactly if it has digits and no others, and then the one its places say. */
  lemma {:induction false} DigitsPlace(s: string, base: nat)
    ensures Digits(s, base).Ok? <==> |s| > 0 && forall i :: 0 <= i < |s| ==> IsDigit(s[i], base)
    ensures Digits(s, base).Ok? ==> Digits(s, base).value == Place(Values(s), base)
  {
    if |s| > 0 {
      var t, c := s[..|s| - 1], s[|s| - 1];
      assert s == t + [c];
      hide IsDigit, DigitOf, Place;
      if |t| > 0 { DigitsPlace(t, base); }
      assert Values(s) == Values(t) + [Values(s)[|s| - 1]];
      PlaceLast(Values(t), Values(s)[|s| - 1], base);
      if |t| == 0 { assert Values(t) == [] && Place([], base) == 0 by { NoPlace(base); } }
      DigitIs(c, base);
    }
  }

  lemma NoPlace(base: nat)
    ensures Place([], base) == 0
  {}

  lemma DigitIs(c: char, base: nat)
    ensures IsDigit(c, base) ==> DigitOf(c).Ok?
  {}

  /** Exactly the decimal digits, and of letters those of either case up to the base, count as digits. */
  lemma DigitIff(c: char, base: nat)
    requires 2 <= base <= 16
    ensures IsDigit(c, base) <==>
              || (base <= 10 && '0' <= c && (c as int) < '0' as int + base)
              || (base > 10 && '0' <= c <= '9')
              || (base > 10 && 'a' <= c && (c as int) < 'a' as int + base - 10)
              || (base > 10 && 'A' <= c && (c as int) < 'A' as int + base - 10)
  {}

  ghost predicate Same(number: Result<int>, digits: Result<nat>) {
    (number.Ok? <==> digits.Ok?) && (number.Ok? ==> number.value == digits.value)
  }

  /** The prefix chooses the base. */
  lemma PrefixRead(c: char, d: string)
    ensures c in "xX" ==> Same(Number("0" + [c] + d), Digits(d, 16))
    ensures c in "bB" ==> Same(Number("0" + [c] + d), Digits(d, 2))
    ensures c !in "xXbB" ==> Same(Number("0" + [c] + d), Digits([c] + d, 8))
    ensures c !in "0+-" || (d == "" && c == '0') ==> Same(Number([c] + d), Digits([c] + d, 10))
  {
    hide Digits;
    var s := "0" + [c] + d;
    assert s[0] == '0' && s[1] == c && s[2..] == d && s[1..] == [c] + d;
  }

  /** A sign may stand before the number. */
  lemma SignRead(d: string)
    requires d == "" || d[0] !in "+-"
    ensures Number("+" + d) == Number(d)
    ensures Number(d).Ok? ==> Number("-" + d) == Ok(-Number(d).value)
  {
    hide Unsigned;
    assert ("+" + d)[1..] == d && ("-" + d)[1..] == d;
  }

  /** A component is refused if it is no number or out of range, and hardened ones have half the range. */
  lemma ComponentCases(s: string)
    requires TrimSpace(s) == s && (s == "" || s[|s| - 1] != '\'')
    ensures Component(s) == if Number(s).Err? then Err(InvalidComponent)
                            else if 0 <= Number(s).value < 4294967296 then Ok(Number(s).value) else Err(OutOfRange)
    ensures s != "" ==>
              Component(s + "'") == if Number(s).Err? then Err(InvalidComponent)
                                    else if 0 <= Number(s).value < 2147483648 then Ok(2147483648 + Number(s).value) else Err(OutOfRange)
  {
    if s != "" {
      var t := s + "'";
      NotBlankEnds(s);
      NoTrim(t);
      assert t[..|t| - 1] == s;
    }
  }

  lemma NotBlankEnds(s: string)
    requires s != "" && TrimSpace(s) == s
    ensures !IsSpace(s[0]) && !IsSpace(s[|s| - 1])
  {
    TrimShorter(s);
    TrimShorter(TrimLeft(s));
  }

  lemma {:induction false} TrimShorter(s: string)
    ensures |TrimLeft(s)| <= |s| && |TrimRight(s)| <= |s|
    ensures s != "" && IsSpace(s[0]) ==> |TrimLeft(s)| < |s|
    ensures s != "" && IsSpace(s[|s| - 1]) ==> |TrimRight(s)| < |s|
    decreases |s|
  {
    if s != "" {
      TrimShorter(s[1..]);
      TrimShorter(s[..|s| - 1]);
    }
  }

  /** A path with a blank first part is ambiguous, and `m` alone is empty. */
  lemma PathErrors(blank: string, rest: string)
    requires Blank(blank) && forall i :: 0 <= i < |blank| ==> blank[i] != '/'
    ensures Parse(blank) == Err(AmbiguousPath) && Parse(blank + "/" + rest) == Err(AmbiguousPath)
    ensures Parse("m") == Err(EmptyPath)
  {
    RightGone("", blank);
    assert "" + blank == blank;
    LeftThrough("", blank);
    SplitWhole(blank, '/');
    SplitFirst(blank, rest, '/');
    SplitWhole("m", '/');
    NoTrim("m");
  }

  lemma {:induction false} SplitFirst(s: string, t: string, sep: char)
    requires forall i :: 0 <= i < |s| ==> s[i] != sep
    ensures Split(s + [sep] + t, sep)[0] == s
    decreases |s|
  {
    var all := s + [sep] + t;
    if |s| > 0 {
      SplitFirst(s[1..], t, sep);
      assert all[1..] == s[1..] + [sep] + t;
    }
  }
}
