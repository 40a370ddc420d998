/** Display helpers of the main dialog: the list of style names with the
    platform's default style first, and the X Window System geometry string
    of a rectangle (the "GEOMETRY SPECIFICATIONS" section of the X(7) manual
    page: `WIDTHxHEIGHT{+-}XOFF{+-}YOFF`). */
module MediaPlayerMain {

  import opened Optional
  import opened Text

  /** `style.lower() == default_style_name`. */
  predicate IsDefault(key: string, defaultName: string): (r: bool)
    ensures r <==> |key| == |defaultName| && forall i :: 0 <= i < |key| ==> LowerChar(key[i]) == defaultName[i]
  {
    Lower(key) == defaultName
  }

  /** The keys that name the default style, in input order. */
  function Defaults(keys: seq<string>, defaultName: string): (r: seq<string>)
    ensures forall i :: 0 <= i < |r| ==> IsDefault(r[i], defaultName)
  {
    if keys == [] then []
    else Defaults(keys[..|keys| - 1], defaultName) +
         (if IsDefault(keys[|keys| - 1], defaultName) then [keys[|keys| - 1]] else [])
  }

  /** The other keys, in input order. */
  function Others(keys: seq<string>, defaultName: string): (r: seq<string>)
    ensures forall i :: 0 <= i < |r| ==> !IsDefault(r[i], defaultName)
  {
    if keys == [] then []
    else Others(keys[..|keys| - 1], defaultName) +
         (if IsDefault(keys[|keys| - 1], defaultName) then [] else [keys[|keys| - 1]])
  }

  function Reverse<T>(s: seq<T>): (r: seq<T>)
    ensures |r| == |s|
  {
    if s == [] then [] else [s[|s| - 1]] + Reverse(s[..|s| - 1])
  }

  /** The order `style_names` produces: each default key was inserted at the
      front, so they come first and reversed; the others follow in order. */
  function StyleOrder(keys: seq<string>, defaultName: string): seq<string> {
    Reverse(Defaults(keys, defaultName)) + Others(keys, defaultName)
  }

  /** `style_names`: `defaultStyle` is the object name of the current style,
      `keys` what `QStyleFactory.keys()` returns. */
  method StyleNames(keys: seq<string>, defaultStyle: string) returns (result: seq<string>)
    ensures result == StyleOrder(keys, Lower(defaultStyle))
    ensures multiset(result) == multiset(keys)
  {
    var defaultStyleName := Lower(defaultStyle);
    result := [];
    for i := 0 to |keys|
      invariant result == StyleOrder(keys[..i], defaultStyleName)
    {
      var style := keys[i];
      assert keys[..i + 1] == keys[..i] + [style];
      StyleOrderSnoc(keys[..i], style, defaultStyleName);
      if Lower(style) == defaultStyleName {
        result := [style] + result;
      } else {
        result := result + [style];
      }
    }
    assert keys[..|keys|] == keys;
    StyleOrderPermutation(keys, defaultStyleName);
  }

  /** One more key: a default one goes to the front, any other to the back. */
  lemma StyleOrderSnoc(keys: seq<string>, key: string, defaultName: string)
    ensures StyleOrder(keys + [key], defaultName) ==
      if IsDefault(key, defaultName) then [key] + StyleOrder(keys, defaultName)
      else StyleOrder(keys, defaultName) + [key]
  {
    var ks := keys + [key];
    assert ks[..|ks| - 1] == keys;
    var d, o := Defaults(keys, defaultName), Others(keys, defaultName);
    if IsDefault(key, defaultName) {
      assert Defaults(ks, defaultName) == d + [key];
      assert (d + [key])[..|d|] == d;
      assert Reverse(d + [key]) == [key] + Reverse(d);
      assert Others(ks, defaultName) == o;
    } else {
      assert Defaults(ks, defaultName) == d;
      assert Others(ks, defaultName) == o + [key];
      assert Reverse(d) + (o + [key]) == (Reverse(d) + o) + [key];
    }
  }

  lemma {:induction false} ReverseMultiset<T>(s: seq<T>)
    ensures multiset(Reverse(s)) == multiset(s)
  {
    if s != [] {
      ReverseMultiset(s[..|s| - 1]);
      assert s == s[..|s| - 1] + [s[|s| - 1]];
    }
  }

  lemma {:induction false} SplitMultiset(keys: seq<string>, defaultName: string)
    ensures multiset(Defaults(keys, defaultName)) + multiset(Others(keys, defaultName)) == multiset(keys)
  {
    if keys != [] {
      SplitMultiset(keys[..|keys| - 1], defaultName);
      assert keys == keys[..|keys| - 1] + [keys[|keys| - 1]];
    }
  }

  /** Every key appears in the result exactly as often as in the input. */
  lemma StyleOrderPermutation(keys: seq<string>, defaultName: string)
    ensures multiset(StyleOrder(keys, defaultName)) == multiset(keys)
    ensures |StyleOrder(keys, defaultName)| == |keys|
  {
    ReverseMultiset(Defaults(keys, defaultName));
    SplitMultiset(keys, defaultName);
    assert |multiset(StyleOrder(keys, defaultName))| == |multiset(keys)|;
  }

  lemma {:induction false} ReverseAt<T>(s: seq<T>, k: nat)
    requires k < |s|
    ensures Reverse(s)[k] == s[|s| - 1 - k]
  {
    if k > 0 {
      ReverseAt(s[..|s| - 1], k - 1);
    }
  }

  /** The default keys come before all others, and are reversed. */
  lemma StyleOrderDefaultsFirst(keys: seq<string>, defaultName: string)
    ensures var r := StyleOrder(keys, defaultName); var n := |Defaults(keys, defaultName)|;
      && (forall i :: 0 <= i < n ==> IsDefault(r[i], defaultName))
      && (forall i :: n <= i < |r| ==> !IsDefault(r[i], defaultName))
      && (forall i :: 0 <= i < n ==> r[i] == Defaults(keys, defaultName)[n - 1 - i])
      && r[n..] == Others(keys, defaultName)
  {
    var d := Defaults(keys, defaultName);
    var r := StyleOrder(keys, defaultName);
    forall i | 0 <= i < |d|
      ensures r[i] == d[|d| - 1 - i] && IsDefault(r[i], defaultName)
    {
      ReverseAt(d, i);
    }
    assert r[|d|..] == Others(keys, defaultName);
  }

  lemma {:induction false} FilterAppend(a: seq<string>, b: seq<string>, defaultName: string)
    ensures Defaults(a + b, defaultName) == Defaults(a, defaultName) + Defaults(b, defaultName)
    ensures Others(a + b, defaultName) == Others(a, defaultName) + Others(b, defaultName)
    decreases |b|
  {
    if b == [] {
      assert a + b == a;
    } else {
      assert (a + b)[..|a + b| - 1] == a + b[..|b| - 1];
      FilterAppend(a, b[..|b| - 1], defaultName);
    }
  }

  lemma {:induction false} NoDefaults(keys: seq<string>, defaultName: string)
    requires forall i :: 0 <= i < |keys| ==> !IsDefault(keys[i], defaultName)
    ensures Defaults(keys, defaultName) == [] && Others(keys, defaultName) == keys
  {
    if keys != [] {
      NoDefaults(keys[..|keys| - 1], defaultName);
    }
  }

  /** With no key naming the default style the order is unchanged; with one
      at position j, it moves to the front and the rest keep their order. */
  lemma StyleOrderSingleDefault(keys: seq<string>, defaultName: string, j: int)
    requires 0 <= j < |keys| && IsDefault(keys[j], defaultName)
    requires forall i :: 0 <= i < |keys| && i != j ==> !IsDefault(keys[i], defaultName)
    ensures StyleOrder(keys, defaultName) == [keys[j]] + keys[..j] + keys[j + 1..]
  {
    var front, rest := keys[..j], keys[j + 1..];
    assert keys == front + [keys[j]] + rest;
    forall i | 0 <= i < |front| ensures !IsDefault(front[i], defaultName) {
      assert front[i] == keys[i];
    }
    forall i | 0 <= i < |rest| ensures !IsDefault(rest[i], defaultName) {
      assert rest[i] == keys[j + 1 + i];
    }
    SingleDefaultParts(front, keys[j], rest, defaultName);
  }

  lemma SingleDefaultParts(front: seq<string>, key: string, rest: seq<string>, defaultName: string)
    requires IsDefault(key, defaultName)
    requires forall i :: 0 <= i < |front| ==> !IsDefault(front[i], defaultName)
    requires forall i :: 0 <= i < |rest| ==> !IsDefault(rest[i], defaultName)
    ensures StyleOrder(front + [key] + rest, defaultName) == [key] + front + rest
  {
    NoDefaults(front, defaultName);
    NoDefaults(rest, defaultName);
    FilterAppend(front, [key], defaultName);
    FilterAppend(front + [key], rest, defaultName);
    SingleKeyFilters(key, defaultName);
    assert Defaults(front + [key] + rest, defaultName) == [key];
    assert Others(front + [key] + rest, defaultName) == front + rest;
  }

  lemma SingleKeyFilters(key: string, defaultName: string)
    requires IsDefault(key, defaultName)
    ensures Defaults([key], defaultName) == [key] && Others([key], defaultName) == []
    ensures Reverse([key]) == [key]
  {
    assert [key][..0] == [];
  }

  lemma StyleOrderNoDefault(keys: seq<string>, defaultName: string)
    requires forall i :: 0 <= i < |keys| ==> !IsDefault(keys[i], defaultName)
    ensures StyleOrder(keys, defaultName) == keys
  {
    NoDefaults(keys, defaultName);
  }

  /** A rectangle as `QRect` reports it. */
  datatype Rect = Rect(x: int, y: int, width: int, height: int)

  /** `f"{w}x{h}{x:+d}{y:+d}"`. */
  function FormatGeometry(rect: Rect): (s: string)
    ensures var w := IntToDecimal(rect.width);
      |s| > |w| && s[..|w|] == w && s[|w|] == 'x'
    ensures s[0] == '-' <==> rect.width < 0
  {
    IntToDecimal(rect.width) + "x" + IntToDecimal(rect.height) + SignedDecimal(rect.x) + SignedDecimal(rect.y)
  }

  /** The number of leading decimal digits. */
  function DigitRun(s: string): (n: nat)
    ensures n <= |s| && (forall i :: 0 <= i < n ==> IsDigit(s[i]))
    ensures n == |s| || !IsDigit(s[n])
  {
    if s != [] && IsDigit(s[0]) then 1 + DigitRun(s[1..]) else 0
  }

  /** The longest prefix of digits, and what follows it. */
  function SpanDigits(s: string): (r: (string, string)) {
    var n := DigitRun(s);
    (s[..n], s[n..])
  }

  lemma SpanDigitsOf(digits: string, rest: string)
    requires AllDigits(digits) && (rest == [] || !IsDigit(rest[0]))
    ensures SpanDigits(digits + rest) == (digits, rest)
  {
    var s := digits + rest;
    assert s[..|digits|] == digits && s[|digits|..] == rest;
  }

  predicate IsSign(c: char) {
    c == '+' || c == '-'
  }

  function ApplySign(sign: char, magnitude: nat): int {
    var m: int := magnitude;
    if sign == '-' then -m else m
  }

  /** A sign and a non-empty run of digits, and what follows them. */
  function ParseOffset(s: string): Option<(int, string)> {
    if s == [] || !IsSign(s[0]) then None
    else
      var (digits, rest) := SpanDigits(s[1..]);
      if digits == [] then None else Some((ApplySign(s[0], DecimalValue(digits)), rest))
  }

  /** Reads a full geometry `WxH{+-}X{+-}Y` (the separator may be 'x' or 'X');
      a '-' offset is returned as a negative number. */
  function ParseGeometry(s: string): Option<Rect> {
    var (w, r1) := SpanDigits(s);
    if w == [] || r1 == [] || (r1[0] != 'x' && r1[0] != 'X') then None
    else
      var (h, r2) := SpanDigits(r1[1..]);
      if h == [] then None
      else
        match ParseOffset(r2)
        case None => None
        case Some((x, r3)) =>
          match ParseOffset(r3)
          case None => None
          case Some((y, r4)) =>
            if r4 != [] then None else Some(Rect(x, y, DecimalValue(w), DecimalValue(h)))
  }

  lemma ParseOffsetOf(sign: char, digits: string, rest: string)
    requires IsSign(sign) && |digits| > 0 && AllDigits(digits)
    requires rest == [] || !IsDigit(rest[0])
    ensures ParseOffset([sign] + (digits + rest)) == Some((ApplySign(sign, DecimalValue(digits)), rest))
  {
    var s := [sign] + (digits + rest);
    assert s != [] && s[0] == sign;
    assert s[1..] == digits + rest;
    SpanDigitsOf(digits, rest);
    ParseOffsetOfSpan(s, digits, rest);
  }

  lemma ParseOffsetOfSpan(s: string, digits: string, rest: string)
    requires |digits| > 0 && AllDigits(digits) && s != [] && IsSign(s[0])
    requires SpanDigits(s[1..]) == (digits, rest)
    ensures ParseOffset(s) == Some((ApplySign(s[0], DecimalValue(digits)), rest))
  {
  }

  lemma ParseGeometryOfParts(s: string, w: string, r1: string, h: string, r2: string, xv: int, r3: string, yv: int)
    requires |w| > 0 && |h| > 0 && AllDigits(w) && AllDigits(h)
    requires SpanDigits(s) == (w, r1) && r1 != [] && r1[0] == 'x'
    requires SpanDigits(r1[1..]) == (h, r2)
    requires ParseOffset(r2) == Some((xv, r3)) && ParseOffset(r3) == Some((yv, []))
    ensures ParseGeometry(s) == Some(Rect(xv, yv, DecimalValue(w), DecimalValue(h)))
  {
  }

  lemma SizeOf(s: string, w: string, h: string, r2: string)
    requires |w| > 0 && |h| > 0 && AllDigits(w) && AllDigits(h)
    requires r2 != [] && !IsDigit(r2[0])
    requires s == w + ("x" + (h + r2))
    ensures SpanDigits(s) == (w, "x" + (h + r2))
    ensures SpanDigits(("x" + (h + r2))[1..]) == (h, r2)
  {
    SpanDigitsOf(w, "x" + (h + r2));
    assert ("x" + (h + r2))[1..] == h + r2;
    SpanDigitsOf(h, r2);
  }

  lemma OffsetsOf(r2: string, sx: char, x: string, sy: char, y: string)
    requires |x| > 0 && |y| > 0 && AllDigits(x) && AllDigits(y) && IsSign(sx) && IsSign(sy)
    requires r2 == [sx] + (x + ([sy] + y))
    ensures ParseOffset(r2) == Some((ApplySign(sx, DecimalValue(x)), [sy] + y))
    ensures ParseOffset([sy] + y) == Some((ApplySign(sy, DecimalValue(y)), []))
  {
    ParseOffsetOf(sx, x, [sy] + y);
    assert [sy] + y == [sy] + (y + []);
    ParseOffsetOf(sy, y, []);
  }

  /** A string built from the four fields reads back to them. */
  lemma ParseGeometryOf(s: string, w: string, h: string, sx: char, x: string, sy: char, y: string)
    requires |w| > 0 && |h| > 0 && |x| > 0 && |y| > 0
    requires AllDigits(w) && AllDigits(h) && AllDigits(x) && AllDigits(y)
    requires IsSign(sx) && IsSign(sy)
    requires s == w + ("x" + (h + ([sx] + (x + ([sy] + y)))))
    ensures ParseGeometry(s) ==
      Some(Rect(ApplySign(sx, DecimalValue(x)), ApplySign(sy, DecimalValue(y)), DecimalValue(w), DecimalValue(h)))
  {
    var r2 := [sx] + (x + ([sy] + y));
    SizeOf(s, w, h, r2);
    OffsetsOf(r2, sx, x, sy, y);
    ParseGeometryOfParts(s, w, "x" + (h + r2), h, r2, ApplySign(sx, DecimalValue(x)), [sy] + y, ApplySign(sy, DecimalValue(y)));
  }

  lemma SignedDecimalParts(i: int)
    ensures SignedDecimal(i) == [if i < 0 then '-' else '+'] + NatToDecimal(if i < 0 then -i else i)
    ensures ApplySign(SignedDecimal(i)[0], DecimalValue(SignedDecimal(i)[1..])) == i
  {
    var s := SignedDecimal(i);
    assert s[1..] == NatToDecimal(if i < 0 then -i else i);
    DecimalValueOfNat(if i < 0 then -i else i);
  }

  /** The formatted string split at its four fields. */
  lemma FormattedFields(ws: string, hs: string, xs: string, ys: string)
    requires |ws| > 0 && |hs| > 0 && AllDigits(ws) && AllDigits(hs)
    requires |xs| >= 2 && |ys| >= 2 && IsSign(xs[0]) && IsSign(ys[0])
    requires AllDigits(xs[1..]) && AllDigits(ys[1..])
    ensures ParseGeometry(ws + "x" + hs + xs + ys) ==
      Some(Rect(ApplySign(xs[0], DecimalValue(xs[1..])), ApplySign(ys[0], DecimalValue(ys[1..])),
                DecimalValue(ws), DecimalValue(hs)))
  {
    assert xs == [xs[0]] + xs[1..] && ys == [ys[0]] + ys[1..];
    assert ws + "x" + hs + xs + ys == ws + ("x" + (hs + ([xs[0]] + (xs[1..] + ([ys[0]] + ys[1..])))));
    ParseGeometryOf(ws + "x" + hs + xs + ys, ws, hs, xs[0], xs[1..], ys[0], ys[1..]);
  }

  lemma FormatGeometryNonNegative(rect: Rect)
    requires rect.width >= 0 && rect.height >= 0
    ensures ParseGeometry(FormatGeometry(rect)) == Some(rect)
  {
    var xs, ys := SignedDecimal(rect.x), SignedDecimal(rect.y);
    SignedDecimalParts(rect.x);
    SignedDecimalParts(rect.y);
    FormattedFields(IntToDecimal(rect.width), IntToDecimal(rect.height), xs, ys);
    DecimalValueOfNat(rect.width);
    DecimalValueOfNat(rect.height);
  }

  lemma FormatGeometryNegativeWidth(rect: Rect)
    requires rect.width < 0
    ensures ParseGeometry(FormatGeometry(rect)) == None
  {
    var s := FormatGeometry(rect);
    assert s[0] == '-';
    assert DigitRun(s) == 0;
  }

  lemma FormatGeometryNegativeHeight(rect: Rect)
    requires rect.width >= 0 && rect.height < 0
    ensures ParseGeometry(FormatGeometry(rect)) == None
  {
    var s := FormatGeometry(rect);
    var ws, hs := IntToDecimal(rect.width), IntToDecimal(rect.height);
    var r1 := "x" + (hs + (SignedDecimal(rect.x) + SignedDecimal(rect.y)));
    assert s == ws + r1;
    SpanDigitsOf(ws, r1);
    assert r1[1..][0] == '-';
    assert DigitRun(r1[1..]) == 0;
  }

  /** The string is a geometry that reads back to the rectangle exactly when
      width and height are non-negative; otherwise it is not a geometry. */
  lemma GeometryRoundTrip(rect: Rect)
    ensures rect.width >= 0 && rect.height >= 0 ==> ParseGeometry(FormatGeometry(rect)) == Some(rect)
    ensures rect.width < 0 || rect.height < 0 ==> ParseGeometry(FormatGeometry(rect)) == None
  {
    if rect.width < 0 {
      FormatGeometryNegativeWidth(rect);
    } else if rect.height < 0 {
      FormatGeometryNegativeHeight(rect);
    } else {
      FormatGeometryNonNegative(rect);
    }
  }

  lemma Decimal1920()
    ensures NatToDecimal(1920) == "1920"
  {
    assert NatToDecimal(19) == "19";
    assert NatToDecimal(192) == "192";
  }

  lemma Decimal1080()
    ensures NatToDecimal(1080) == "1080"
  {
    assert NatToDecimal(10) == "10";
    assert NatToDecimal(108) == "108";
  }

  /** A screen to the left of the primary one. */
  lemma GeometryExample()
    ensures FormatGeometry(Rect(-1920, 0, 1920, 1080)) == "1920x1080-1920+0"
  {
    Decimal1920();
    Decimal1080();
    assert SignedDecimal(0) == "+0";
  }
}
