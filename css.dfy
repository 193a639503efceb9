/**
 * The colour and style resolver of the HTML-to-DOCX translator:
 * `extractCssProp` (one property out of an inline `style` string) and
 * `cssColorToHex` (a CSS colour in one of the accepted notations to six
 * upper-case hexadecimal digits, or nothing).
 *
 * The notations accepted are a subset of CSS Color Module Level 4: the hex
 * notations of section 5.2 (three or six digits), `rgb()`/`rgba()` with
 * comma-separated integer channels from section 5.1, and seven of the named
 * colours of section 6.
 */
module Css {
  import opened Wrappers
  import opened Strings

  // ---------------------------------------------------------------------------
  // extractCssProp: the regular expression `${prop}\s*:\s*([^;]+)` with flag `i`
  // ---------------------------------------------------------------------------

  /** The property name occurs at index `i`, compared without regard to ASCII case. */
  predicate NameAt(style: string, prop: string, i: nat) {
    i + |prop| <= |style| && Lower(style[i..i + |prop|]) == Lower(prop)
  }

  /** The first index at or after `j` that does not hold white space. */
  function SkipSpaces(s: string, j: nat): (k: nat)
    requires j <= |s|
    ensures j <= k <= |s| && (k < |s| ==> !IsSpace(s[k]))
    ensures forall m :: j <= m < k ==> IsSpace(s[m])
    decreases |s| - j
  {
    if j < |s| && IsSpace(s[j]) then SkipSpaces(s, j + 1) else j
  }

  /** The first index at or after `k` holding ';', or the end of `s`. */
  function ValueEnd(s: string, k: nat): (e: nat)
    requires k <= |s|
    ensures k <= e <= |s| && (e < |s| ==> s[e] == ';')
    ensures forall m :: k <= m < e ==> s[m] != ';'
    decreases |s| - k
  {
    if k < |s| && s[k] != ';' then ValueEnd(s, k + 1) else k
  }

  /** The index just after the ':' that follows the name at `i` (past white space), if any. */
  function ColonAfter(style: string, prop: string, i: nat): Option<nat>
    requires NameAt(style, prop, i)
  {
    var k := SkipSpaces(style, i + |prop|);
    if k < |style| && style[k] == ':' then Some(k + 1) else None
  }

  /**
   * The pattern matches at index `i`: the name, white space, a colon, and at
   * least one character before the next ';' (`[^;]+` needs one; white space counts).
   */
  predicate MatchesAt(style: string, prop: string, i: nat) {
    NameAt(style, prop, i)
    && var c := ColonAfter(style, prop, i);
       c.Some? && c.value < |style| && ValueEnd(style, c.value) > c.value
  }

  /** The captured value at a match, trimmed as the source does. */
  function ValueAt(style: string, prop: string, i: nat): string
    requires MatchesAt(style, prop, i)
  {
    var k := ColonAfter(style, prop, i).value;
    Trim(style[k..ValueEnd(style, k)])
  }

  /** The leftmost match at or after index `i`. */
  function ExtractFrom(style: string, prop: string, i: nat): Option<string>
    requires i <= |style|
    decreases |style| - i
  {
    if MatchesAt(style, prop, i) then Some(ValueAt(style, prop, i))
    else if i == |style| then None
    else ExtractFrom(style, prop, i + 1)
  }

  /** The scan finds nothing exactly when no index matches, and otherwise the leftmost match. */
  lemma ExtractFromLeftmost(style: string, prop: string, i: nat)
    requires i <= |style|
    ensures ExtractFrom(style, prop, i).None? <==> forall j :: i <= j <= |style| ==> !MatchesAt(style, prop, j)
    ensures ExtractFrom(style, prop, i).Some? ==>
      exists j :: i <= j <= |style| && MatchesAt(style, prop, j)
        && ExtractFrom(style, prop, i).value == ValueAt(style, prop, j)
        && forall m :: i <= m < j ==> !MatchesAt(style, prop, m)
  {
    ExtractFromNone(style, prop, i);
    if ExtractFrom(style, prop, i).Some? {
      var j := ExtractFromFound(style, prop, i);
    }
  }

  lemma {:induction false} ExtractFromNone(style: string, prop: string, i: nat)
    requires i <= |style|
    ensures ExtractFrom(style, prop, i).None? <==> forall j :: i <= j <= |style| ==> !MatchesAt(style, prop, j)
    decreases |style| - i
  {
    if !MatchesAt(style, prop, i) && i < |style| {
      ExtractFromNone(style, prop, i + 1);
    }
  }

  /** The index of the leftmost match, when the scan finds one. */
  lemma {:induction false} ExtractFromFound(style: string, prop: string, i: nat) returns (j: nat)
    requires i <= |style| && ExtractFrom(style, prop, i).Some?
    ensures i <= j <= |style| && MatchesAt(style, prop, j)
    ensures ExtractFrom(style, prop, i).value == ValueAt(style, prop, j)
    ensures forall m :: i <= m < j ==> !MatchesAt(style, prop, m)
    decreases |style| - i
  {
    if MatchesAt(style, prop, i) {
      j := i;
    } else {
      assert i < |style| && ExtractFrom(style, prop, i) == ExtractFrom(style, prop, i + 1);
      j := ExtractFromFound(style, prop, i + 1);
      assert forall m :: i + 1 <= m < j ==> !MatchesAt(style, prop, m);
    }
  }

  /**
   * `extractCssProp(style, prop)`: the trimmed text after the FIRST place where
   * the property name, optional white space and ':' occur, up to the next ';'.
   * The name is not anchored, so "color" also matches inside "background-color".
   */
  function ExtractCssProp(style: string, prop: string): Option<string> {
    ExtractFrom(style, prop, 0)
  }

  /** Nothing is found exactly when the pattern matches nowhere; otherwise the value at the leftmost match. */
  lemma ExtractCssPropLeftmost(style: string, prop: string)
    ensures var r := ExtractCssProp(style, prop);
      && (r.None? <==> forall j :: 0 <= j <= |style| ==> !MatchesAt(style, prop, j))
      && (r.Some? ==>
            exists j :: 0 <= j <= |style| && MatchesAt(style, prop, j) && r.value == ValueAt(style, prop, j)
              && forall m :: 0 <= m < j ==> !MatchesAt(style, prop, m))
  {
    ExtractFromLeftmost(style, prop, 0);
  }

  // ---------------------------------------------------------------------------
  // Hexadecimal and decimal digits
  // ---------------------------------------------------------------------------

  predicate IsHexDigit(c: char) {
    '0' <= c <= '9' || 'a' <= c <= 'f' || 'A' <= c <= 'F'
  }

  predicate IsUpperHexDigit(c: char) {
    '0' <= c <= '9' || 'A' <= c <= 'F'
  }

  /** The canonical output shape: exactly six upper-case hexadecimal digits. */
  predicate IsHex6(s: string) {
    |s| == 6 && forall i :: 0 <= i < |s| ==> IsUpperHexDigit(s[i])
  }

  lemma UpperHexDigit(c: char)
    requires IsHexDigit(c)
    ensures IsUpperHexDigit(UpperChar(c))
    ensures IsUpperHexDigit(c) ==> UpperChar(c) == c
  {
  }

  /** Upper-casing a canonical colour changes nothing. */
  lemma UpperHex6(s: string)
    requires IsHex6(s)
    ensures Upper(s) == s
  {
  }

  function HexDigit(n: nat): (c: char)
    requires n < 16
    ensures IsUpperHexDigit(c)
  {
    if n < 10 then ('0' as int + n) as char else ('A' as int + n - 10) as char
  }

  /** `n.toString(16).padStart(2, "0").toUpperCase()` for a channel in 0..255. */
  function HexByte(n: nat): (s: string)
    requires n < 256
    ensures |s| == 2 && IsUpperHexDigit(s[0]) && IsUpperHexDigit(s[1])
  {
    [HexDigit(n / 16), HexDigit(n % 16)]
  }

  predicate AllDigits(s: string) {
    forall i :: 0 <= i < |s| ==> IsDigit(s[i])
  }

  /** `Number(s)` for a string of decimal digits. */
  function DecimalValue(s: string): nat
    requires AllDigits(s)
  {
    if s == [] then 0 else DecimalValue(s[..|s| - 1]) * 10 + (s[|s| - 1] as int - '0' as int)
  }

  /** The decimal rendering of a natural number (no leading zeros). */
  function NatToDecimal(n: nat): (s: string)
    ensures IsDigits(s)
  {
    if n < 10 then [('0' as int + n) as char]
    else NatToDecimal(n / 10) + [('0' as int + n % 10) as char]
  }

  /** Reading back the decimal rendering of `n` gives `n`. */
  lemma {:induction false} DecimalRoundTrip(n: nat)
    ensures DecimalValue(NatToDecimal(n)) == n
  {
    if n >= 10 {
      DecimalRoundTrip(n / 10);
      var s := NatToDecimal(n);
      assert s[..|s| - 1] == NatToDecimal(n / 10);
    }
  }

  /** `Math.max(0, Math.min(255, n))` for a non-negative `n`. */
  function Clamp255(n: nat): (c: nat)
    ensures c < 256
  {
    if n > 255 then 255 else n
  }

  // ---------------------------------------------------------------------------
  // cssColorToHex
  // ---------------------------------------------------------------------------

  /** `^#([0-9a-f]{3}|[0-9a-f]{6})$` with flag `i`. */
  predicate IsHexNotation(v: string) {
    (|v| == 4 || |v| == 7) && v[0] == '#' && forall i :: 1 <= i < |v| ==> IsHexDigit(v[i])
  }

  /** Three digits expand by doubling each one; six are kept. */
  function ExpandHex(h: string): string {
    if |h| == 3 then [h[0], h[0], h[1], h[1], h[2], h[2]] else h
  }

  /** The colour a hex notation denotes, upper-cased. */
  function HexNotationValue(v: string): (h: string)
    requires IsHexNotation(v)
    ensures IsHex6(h)
  {
    var e := ExpandHex(v[1..]);
    assert forall i :: 0 <= i < |e| ==> IsHexDigit(e[i]);
    var h := Upper(e);
    assert IsHex6(h) by {
      forall i | 0 <= i < 6 ensures IsUpperHexDigit(h[i]) {
        UpperHexDigit(e[i]);
      }
    }
    h
  }

  /**
   * The comma-separated arguments of `name(...)`: `v` starts with `name(` and
   * ends with `)`. Arguments cannot hold ')' or ',', so splitting the inside on
   * ',' is what the regular expressions' groups see.
   */
  function FunctionArgs(v: string, name: string): Option<seq<string>> {
    var open := name + "(";
    if |v| > |open| && StartsWith(v, open) && v[|v| - 1] == ')'
    then Some(Split(v[|open|..|v| - 1], ','))
    else None
  }

  /** `\s*(\d+)\s*`. */
  predicate IsChannel(p: string) {
    IsDigits(Trim(p))
  }

  function ChannelValue(p: string): nat
    requires IsChannel(p)
  {
    Clamp255(DecimalValue(Trim(p)))
  }

  /** `\d*\.?\d+`: digits, or digits, a point and at least one digit. */
  predicate IsAlphaNumber(a: string) {
    IsDigits(a) || exists k :: 0 <= k < |a| && a[k] == '.' && AllDigits(a[..k]) && IsDigits(a[k + 1..])
  }

  /** `Number(a) === 0` for a string of that shape: every digit is '0'. */
  predicate AlphaIsZero(a: string) {
    forall i :: 0 <= i < |a| && IsDigit(a[i]) ==> a[i] == '0'
  }

  /** The first three arguments are channels. */
  predicate ThreeChannels(ps: seq<string>) {
    |ps| >= 3 && IsChannel(ps[0]) && IsChannel(ps[1]) && IsChannel(ps[2])
  }

  /** `^rgb\(\s*(\d+)\s*,\s*(\d+)\s*,\s*(\d+)\s*\)$`. */
  predicate IsRgb(v: string) {
    var a := FunctionArgs(v, "rgb");
    a.Some? && |a.value| == 3 && ThreeChannels(a.value)
  }

  /** `^rgba\(\s*(\d+)\s*,\s*(\d+)\s*,\s*(\d+)\s*,\s*(\d*\.?\d+)\s*\)$`. */
  predicate IsRgba(v: string) {
    var a := FunctionArgs(v, "rgba");
    a.Some? && |a.value| == 4 && ThreeChannels(a.value)
    && IsAlphaNumber(Trim(a.value[3]))
  }

  /** Three channels in 0..255 as six upper-case hexadecimal digits. */
  function ChannelBytes(r: nat, g: nat, b: nat): (h: string)
    requires r < 256 && g < 256 && b < 256
    ensures IsHex6(h)
  {
    HexByte(r) + HexByte(g) + HexByte(b)
  }

  /** The three clamped channels, each as two upper-case hexadecimal digits. */
  function ChannelsHex(ps: seq<string>): (h: string)
    requires ThreeChannels(ps)
    ensures IsHex6(h)
  {
    ChannelBytes(ChannelValue(ps[0]), ChannelValue(ps[1]), ChannelValue(ps[2]))
  }

  /** The named colours the resolver knows (the source's `NAMED` table). */
  function NamedColor(v: string): Option<string> {
    if v == "black" then Some("000000")
    else if v == "white" then Some("FFFFFF")
    else if v == "red" then Some("FF0000")
    else if v == "blue" then Some("0000FF")
    else if v == "green" then Some("008000")
    else if v == "gray" || v == "grey" then Some("808080")
    else None
  }

  /**
   * `cssColorToHex(value)`; an absent value is "". Never fails: the result is
   * either nothing or exactly six upper-case hexadecimal digits.
   */
  function CssColorToHex(value: string): (r: Option<string>)
    ensures r.Some? ==> IsHex6(r.value)
  {
    if value == "" then None else ResolveNormalized(Lower(Trim(value)))
  }

  /** The notations tried, in the source's order, on the trimmed, lower-cased value. */
  function ResolveNormalized(v: string): (r: Option<string>)
    ensures r.Some? ==> IsHex6(r.value)
  {
    if IsHexNotation(v) then Some(HexNotationValue(v))
    else if IsRgb(v) then Some(ChannelsHex(FunctionArgs(v, "rgb").value))
    else if IsRgba(v) then
      var ps := FunctionArgs(v, "rgba").value;
      if AlphaIsZero(Trim(ps[3])) then None else Some(ChannelsHex(ps))
    else NamedColor(v)
  }

  // ---------------------------------------------------------------------------
  // Properties of the resolver
  // ---------------------------------------------------------------------------

  lemma DigitsNoComma(s: string)
    requires AllDigits(s)
    ensures ',' !in s
  {
  }

  lemma DigitsLower(s: string)
    requires AllDigits(s)
    ensures Lower(s) == s
  {
    LowerNoCapitals(s);
  }

  /** A digit string is a channel whose value is its number, clamped. */
  lemma DigitsChannel(s: string)
    requires IsDigits(s)
    ensures IsChannel(s) && ChannelValue(s) == Clamp255(DecimalValue(s))
  {
    TrimNoEdges(s);
  }

  /** A value already trimmed and in lower case is resolved as it stands. */
  lemma ResolveNormalizedValue(s: string)
    requires s != [] && !IsSpace(s[0]) && !IsSpace(s[|s| - 1])
    requires forall i :: 0 <= i < |s| ==> !('A' <= s[i] <= 'Z')
    ensures CssColorToHex(s) == ResolveNormalized(s)
  {
    TrimNoEdges(s);
    LowerNoCapitals(s);
  }

  lemma LowerHexDigits(d: string)
    requires forall i :: 0 <= i < |d| ==> IsHexDigit(d[i])
    ensures forall i :: 0 <= i < |d| ==> IsHexDigit(Lower(d)[i])
    ensures Upper(ExpandHex(Lower(d))) == Upper(ExpandHex(d))
  {
    var e, e' := ExpandHex(Lower(d)), ExpandHex(d);
    assert |e| == |e'|;
    forall i | 0 <= i < |e| ensures UpperChar(e[i]) == UpperChar(e'[i]) {
    }
  }

  /**
   * Any hex notation, in either case, denotes its digits upper-cased, three
   * digits being doubled first: "#fff" and "#FFFFFF" both give "FFFFFF".
   */
  lemma HexNotationValueOf(d: string)
    requires |d| == 3 || |d| == 6
    requires forall i :: 0 <= i < |d| ==> IsHexDigit(d[i])
    ensures CssColorToHex("#" + d) == Some(Upper(ExpandHex(d)))
  {
    HexTextNormalized(d);
    LowerHexDigits(d);
    HexTextIsNotation(Lower(d));
  }

  /** The resolver sees "#" followed by the digits lower-cased. */
  lemma HexTextNormalized(d: string)
    requires d != [] && forall i :: 0 <= i < |d| ==> IsHexDigit(d[i])
    ensures CssColorToHex("#" + d) == ResolveNormalized("#" + Lower(d))
  {
    var s := "#" + d;
    assert s[0] == '#' && s[|s| - 1] == d[|d| - 1];
    TrimNoEdges(s);
    LowerConcat("#", d);
    assert Lower("#") == "#";
  }

  /** "#" followed by 3 or 6 hex digits is a hex notation, resolved to its expanded digits. */
  lemma HexTextIsNotation(d: string)
    requires |d| == 3 || |d| == 6
    requires forall i :: 0 <= i < |d| ==> IsHexDigit(d[i])
    ensures IsHexNotation("#" + d) && ResolveNormalized("#" + d) == Some(Upper(ExpandHex(d)))
  {
    var v := "#" + d;
    assert v[1..] == d;
    assert IsHexNotation(v) by {
      forall i | 1 <= i < |v| ensures IsHexDigit(v[i]) {
        assert v[i] == d[i - 1];
      }
    }
  }

  /** The canonical form is a fixed point: "#" followed by a resolved colour resolves to it. */
  lemma HexRoundTrip(h: string)
    requires IsHex6(h)
    ensures CssColorToHex("#" + h) == Some(h)
  {
    HexNotationValueOf(h);
    UpperHex6(h);
  }

  /** Comma-separated decimal arguments, as they appear inside the parentheses. */
  function ArgsText(args: seq<string>): string
    requires |args| > 0
  {
    if |args| == 1 then args[0] else args[0] + "," + ArgsText(args[1..])
  }

  lemma {:induction false} ArgsTextParts(args: seq<string>)
    requires |args| > 0 && forall k :: 0 <= k < |args| ==> ',' !in args[k]
    requires forall k :: 0 <= k < |args| ==> Lower(args[k]) == args[k]
    ensures Split(ArgsText(args), ',') == args
    ensures Lower(ArgsText(args)) == ArgsText(args)
  {
    if |args| == 1 {
      SplitNone(args[0], ',');
    } else {
      ArgsTextParts(args[1..]);
      SplitCons(args[0], ',', ArgsText(args[1..]));
      assert args[0] + "," + ArgsText(args[1..]) == args[0] + [','] + ArgsText(args[1..]);
      LowerConcat(args[0], "," + ArgsText(args[1..]));
      LowerConcat(",", ArgsText(args[1..]));
      assert Lower(",") == ",";
      assert [args[0]] + args[1..] == args;
    }
  }

  /** The text of a functional notation: `name(arg,arg,...)`. */
  function CallText(name: string, args: seq<string>): string
    requires |args| > 0
  {
    name + "(" + ArgsText(args) + ")"
  }

  lemma CallTextTrimmed(name: string, args: seq<string>)
    requires |name| > 0 && !IsSpace(name[0]) && |args| > 0
    ensures Trim(CallText(name, args)) == CallText(name, args)
  {
    var s := CallText(name, args);
    assert s[0] == name[0] && s[|s| - 1] == ')';
    TrimNoEdges(s);
  }

  lemma CallTextLower(name: string, args: seq<string>)
    requires Lower(name) == name
    requires |args| > 0 && Lower(ArgsText(args)) == ArgsText(args)
    ensures Lower(CallText(name, args)) == CallText(name, args)
  {
    var inner := ArgsText(args);
    LowerConcat(name, "(");
    LowerConcat(name + "(", inner);
    LowerConcat(name + "(" + inner, ")");
    assert Lower("(") == "(" && Lower(")") == ")";
  }

  lemma CallTextNormalized(name: string, args: seq<string>)
    requires |name| > 0 && Lower(name) == name && !IsSpace(name[0])
    requires |args| > 0 && Lower(ArgsText(args)) == ArgsText(args)
    ensures CssColorToHex(CallText(name, args)) == ResolveNormalized(CallText(name, args))
  {
    CallTextTrimmed(name, args);
    CallTextLower(name, args);
  }

  lemma CallTextArgs(name: string, args: seq<string>)
    requires |name| > 0 && name[0] != '#'
    requires |args| > 0 && Split(ArgsText(args), ',') == args
    ensures !IsHexNotation(CallText(name, args))
    ensures FunctionArgs(CallText(name, args), name) == Some(args)
  {
    var s := CallText(name, args);
    var open := name + "(";
    assert s[0] == name[0];
    assert s[..|open|] == open;
    assert s[|open|..|s| - 1] == ArgsText(args);
  }

  /** `name(args)` with lower-case `name` and arguments resolves as it stands and splits back into its arguments. */
  lemma CallTextResolves(name: string, args: seq<string>)
    requires |name| > 0 && Lower(name) == name && name[0] != '#' && !IsSpace(name[0])
    requires |args| > 0 && forall k :: 0 <= k < |args| ==> ',' !in args[k]
    requires forall k :: 0 <= k < |args| ==> Lower(args[k]) == args[k]
    ensures CssColorToHex(CallText(name, args)) == ResolveNormalized(CallText(name, args))
    ensures !IsHexNotation(CallText(name, args))
    ensures FunctionArgs(CallText(name, args), name) == Some(args)
  {
    ArgsTextParts(args);
    CallTextNormalized(name, args);
    CallTextArgs(name, args);
  }

  /** The text of an `rgb()` colour with decimal channels. */
  function RgbText(a: string, b: string, c: string): string {
    CallText("rgb", [a, b, c])
  }

  lemma RgbTextArgs(a: string, b: string, c: string)
    requires IsDigits(a) && IsDigits(b) && IsDigits(c)
    ensures CssColorToHex(RgbText(a, b, c)) == ResolveNormalized(RgbText(a, b, c))
    ensures !IsHexNotation(RgbText(a, b, c))
    ensures FunctionArgs(RgbText(a, b, c), "rgb") == Some([a, b, c])
  {
    DigitsNoComma(a); DigitsNoComma(b); DigitsNoComma(c);
    DigitsLower(a); DigitsLower(b); DigitsLower(c);
    assert Lower("rgb") == "rgb";
    CallTextResolves("rgb", [a, b, c]);
  }

  /** `rgb(r,g,b)` with decimal channels gives each channel clamped to 255, in hex. */
  lemma RgbNotation(a: string, b: string, c: string)
    requires IsDigits(a) && IsDigits(b) && IsDigits(c)
    ensures CssColorToHex(RgbText(a, b, c))
         == Some(ChannelBytes(Clamp255(DecimalValue(a)), Clamp255(DecimalValue(b)), Clamp255(DecimalValue(c))))
  {
    RgbTextArgs(a, b, c);
    DigitsChannel(a); DigitsChannel(b); DigitsChannel(c);
    var ps := [a, b, c];
    assert IsRgb(RgbText(a, b, c));
  }

  /** The text of an `rgba()` colour with decimal channels. */
  function RgbaText(a: string, b: string, c: string, alpha: string): string {
    CallText("rgba", [a, b, c, alpha])
  }

  lemma AlphaNumberPlain(alpha: string)
    requires IsAlphaNumber(alpha)
    ensures alpha != [] && IsDigit(alpha[|alpha| - 1])
    ensures forall i :: 0 <= i < |alpha| ==> IsDigit(alpha[i]) || alpha[i] == '.'
  {
    if !IsDigits(alpha) {
      var k :| 0 <= k < |alpha| && alpha[k] == '.' && AllDigits(alpha[..k]) && IsDigits(alpha[k + 1..]);
      forall i | 0 <= i < |alpha| ensures IsDigit(alpha[i]) || alpha[i] == '.' {
        if i < k { assert alpha[..k][i] == alpha[i]; }
        else if i > k { assert alpha[k + 1..][i - k - 1] == alpha[i]; }
      }
      assert alpha[k + 1..][|alpha| - k - 2] == alpha[|alpha| - 1];
    }
  }

  /** An alpha number has no comma, capital or surrounding white space. */
  lemma AlphaPlain(alpha: string)
    requires IsAlphaNumber(alpha)
    ensures ',' !in alpha && Lower(alpha) == alpha
  {
    AlphaNumberPlain(alpha);
    LowerNoCapitals(alpha);
  }

  lemma AlphaTrimmed(alpha: string)
    requires IsAlphaNumber(alpha)
    ensures Trim(alpha) == alpha
  {
    AlphaNumberPlain(alpha);
    TrimNoEdges(alpha);
  }

  /** A text whose fourth character is 'a' does not start with "rgb(". */
  lemma NotRgb(s: string)
    requires |s| > 3 && s[3] == 'a'
    ensures !IsRgb(s)
  {
    assert !StartsWith(s, "rgb(") by { assert "rgb("[3] == '('; }
  }

  lemma RgbaTextArgs(a: string, b: string, c: string, alpha: string)
    requires IsDigits(a) && IsDigits(b) && IsDigits(c) && IsAlphaNumber(alpha)
    ensures CssColorToHex(RgbaText(a, b, c, alpha)) == ResolveNormalized(RgbaText(a, b, c, alpha))
    ensures !IsHexNotation(RgbaText(a, b, c, alpha)) && !IsRgb(RgbaText(a, b, c, alpha))
    ensures FunctionArgs(RgbaText(a, b, c, alpha), "rgba") == Some([a, b, c, alpha])
  {
    AlphaPlain(alpha);
    DigitsNoComma(a); DigitsNoComma(b); DigitsNoComma(c);
    DigitsLower(a); DigitsLower(b); DigitsLower(c);
    assert Lower("rgba") == "rgba";
    CallTextResolves("rgba", [a, b, c, alpha]);
    NotRgb(RgbaText(a, b, c, alpha));
  }

  /** With decimal channels and an alpha number, the text is an `rgba()` colour. */
  lemma RgbaTextIsRgba(a: string, b: string, c: string, alpha: string)
    requires IsDigits(a) && IsDigits(b) && IsDigits(c) && IsAlphaNumber(alpha)
    ensures IsRgba(RgbaText(a, b, c, alpha))
  {
    RgbaTextArgs(a, b, c, alpha);
    AlphaTrimmed(alpha);
    DigitsChannel(a); DigitsChannel(b); DigitsChannel(c);
    var ps := [a, b, c, alpha];
  }

  /** The channels of decimal arguments are their clamped numbers. */
  lemma ChannelsHexDigits(ps: seq<string>)
    requires |ps| >= 3 && IsDigits(ps[0]) && IsDigits(ps[1]) && IsDigits(ps[2])
    ensures ThreeChannels(ps)
    ensures ChannelsHex(ps)
         == ChannelBytes(Clamp255(DecimalValue(ps[0])), Clamp255(DecimalValue(ps[1])), Clamp255(DecimalValue(ps[2])))
  {
    DigitsChannel(ps[0]); DigitsChannel(ps[1]); DigitsChannel(ps[2]);
  }

  /** `rgba(r,g,b,a)` resolves to nothing when the alpha is zero, and to the clamped channels otherwise. */
  lemma RgbaResolves(a: string, b: string, c: string, alpha: string)
    requires IsDigits(a) && IsDigits(b) && IsDigits(c) && IsAlphaNumber(alpha)
    ensures CssColorToHex(RgbaText(a, b, c, alpha))
         == if AlphaIsZero(alpha) then None
            else Some(ChannelBytes(Clamp255(DecimalValue(a)), Clamp255(DecimalValue(b)), Clamp255(DecimalValue(c))))
  {
    RgbaTextArgs(a, b, c, alpha);
    RgbaTextIsRgba(a, b, c, alpha);
    AlphaTrimmed(alpha);
    ChannelsHexDigits([a, b, c, alpha]);
    RgbaBranch(RgbaText(a, b, c, alpha), [a, b, c, alpha]);
  }

  /** An `rgba()` text whose arguments are known: the resolver's `rgba()` branch on them. */
  lemma RgbaBranch(s: string, ps: seq<string>)
    requires CssColorToHex(s) == ResolveNormalized(s)
    requires !IsHexNotation(s) && !IsRgb(s) && IsRgba(s) && FunctionArgs(s, "rgba") == Some(ps)
    ensures |ps| == 4 && ThreeChannels(ps)
    ensures CssColorToHex(s) == if AlphaIsZero(Trim(ps[3])) then None else Some(ChannelsHex(ps))
  {
    ResolveRgba(s);
  }

  /**
   * `rgba(r,g,b,a)` gives nothing when the alpha is numerically zero, and
   * otherwise the same colour as `rgb(r,g,b)`: transparency is not kept.
   */
  lemma RgbaNotation(a: string, b: string, c: string, alpha: string)
    requires IsDigits(a) && IsDigits(b) && IsDigits(c)
    requires IsAlphaNumber(alpha)
    ensures CssColorToHex(RgbaText(a, b, c, alpha))
         == if AlphaIsZero(alpha) then None else CssColorToHex(RgbText(a, b, c))
  {
    RgbaResolves(a, b, c, alpha);
    RgbNotation(a, b, c);
  }

  /** The resolver's `rgba()` branch. */
  lemma ResolveRgba(v: string)
    requires !IsHexNotation(v) && !IsRgb(v) && IsRgba(v)
    ensures ResolveNormalized(v)
         == var ps := FunctionArgs(v, "rgba").value;
            if AlphaIsZero(Trim(ps[3])) then None else Some(ChannelsHex(ps))
  {
  }

  /** Channels formatted in decimal and read back through `rgb()` give the same colour as "#rrggbb". */
  lemma RgbRoundTrip(r: nat, g: nat, b: nat)
    requires r < 256 && g < 256 && b < 256
    ensures CssColorToHex(RgbText(NatToDecimal(r), NatToDecimal(g), NatToDecimal(b))) == Some(ChannelBytes(r, g, b))
    ensures CssColorToHex("#" + ChannelBytes(r, g, b)) == Some(ChannelBytes(r, g, b))
  {
    DecimalRoundTrip(r);
    DecimalRoundTrip(g);
    DecimalRoundTrip(b);
    RgbNotation(NatToDecimal(r), NatToDecimal(g), NatToDecimal(b));
    HexRoundTrip(ChannelBytes(r, g, b));
  }

  // Helpers for the examples below: the values of the literal channels they use.

  lemma Decimal255()
    ensures DecimalValue("255") == 255
  {
    assert "255"[..2] == "25" && "25"[..1] == "2" && "2"[..0] == "";
  }

  lemma Decimal300()
    ensures DecimalValue("300") == 300
  {
    assert "300"[..2] == "30" && "30"[..1] == "3" && "3"[..0] == "";
  }

  lemma Decimal0()
    ensures DecimalValue("0") == 0
  {
    assert "0"[..0] == "";
  }

  lemma HexExample()
    ensures CssColorToHex("#fff") == Some("FFFFFF")
  {
    var d := "fff";
    assert "#" + d == "#fff";
    assert ExpandHex(d) == "ffffff";
    assert Upper("ffffff") == "FFFFFF";
    HexNotationValueOf(d);
  }

  lemma NamedExample()
    ensures CssColorToHex("white") == Some("FFFFFF")
  {
    ResolveNormalizedValue("white");
  }

  lemma RgbWhiteExample()
    ensures CssColorToHex("rgb(255,255,255)") == Some("FFFFFF")
  {
    assert RgbText("255", "255", "255") == "rgb(255,255,255)";
    assert ChannelBytes(255, 255, 255) == "FFFFFF";
    Decimal255();
    RgbNotation("255", "255", "255");
  }

  lemma RgbClampExample()
    ensures CssColorToHex("rgb(300,0,0)") == Some("FF0000")
  {
    assert RgbText("300", "0", "0") == "rgb(300,0,0)";
    assert ChannelBytes(255, 0, 0) == "FF0000";
    Decimal300();
    Decimal0();
    RgbNotation("300", "0", "0");
  }

  lemma TransparentExample()
    ensures CssColorToHex("rgba(0,0,0,0)") == None
  {
    TransparentText();
    assert IsAlphaNumber("0") && AlphaIsZero("0");
    RgbaResolves("0", "0", "0", "0");
  }

  lemma TransparentText()
    ensures RgbaText("0", "0", "0", "0") == "rgba(0,0,0,0)"
  {
    assert ArgsText(["0", "0", "0", "0"]) == "0,0,0,0";
  }

  lemma HalfAlphaExample()
    ensures CssColorToHex("rgba(0,0,255,0.5)") == Some("0000FF")
  {
    HalfAlphaText();
    HalfAlphaNumber();
    Decimal0();
    Decimal255();
    assert ChannelBytes(0, 0, 255) == "0000FF";
    RgbaResolves("0", "0", "255", "0.5");
  }

  lemma HalfAlphaText()
    ensures RgbaText("0", "0", "255", "0.5") == "rgba(0,0,255,0.5)"
  {
    assert ArgsText(["0", "0", "255", "0.5"]) == "0,0,255,0.5";
  }

  lemma HalfAlphaNumber()
    ensures IsAlphaNumber("0.5") && !AlphaIsZero("0.5")
  {
    assert "0.5"[1] == '.' && AllDigits("0.5"[..1]) && IsDigits("0.5"[2..]);
    assert "0.5"[2] == '5';
  }

  /** White written three ways resolves to "FFFFFF"; fully transparent black resolves to nothing. */
  lemma ColorExamples()
    ensures CssColorToHex("#fff") == Some("FFFFFF")
    ensures CssColorToHex("rgb(255,255,255)") == Some("FFFFFF")
    ensures CssColorToHex("white") == Some("FFFFFF")
    ensures CssColorToHex("rgb(300,0,0)") == Some("FF0000")
    ensures CssColorToHex("rgba(0,0,0,0)") == None
    ensures CssColorToHex("rgba(0,0,255,0.5)") == Some("0000FF")
  {
    HexExample();
    NamedExample();
    RgbWhiteExample();
    RgbClampExample();
    TransparentExample();
    HalfAlphaExample();
  }
}
