/** The name under which a transcript is saved:
    `<file name up to its last '.'>_<YYYY-MM-DD_HH-MM-SS>.txt`, built from
    `file_name.rsplit('.', 1)[0]` and `datetime.now().strftime("%Y-%m-%d_%H-%M-%S")`.
    The clock reading is passed in as a `Timestamp`. */
module TranscriptNames {

  import opened Optional
  import opened Text

  /** A local date and time as `datetime` holds it. */
  datatype Timestamp = Timestamp(year: int, month: int, day: int, hour: int, minute: int, second: int)
  {
    predicate Valid() {
      && 1 <= year <= 9999 && 1 <= month <= 12 && 1 <= day <= 31
      && 0 <= hour <= 23 && 0 <= minute <= 59 && 0 <= second <= 59
    }
  }

  /** `strftime("%Y-%m-%d_%H-%M-%S")`: every field zero-padded, the year to
      four digits and the others to two. */
  function Stamp(t: Timestamp): (s: string)
    requires t.Valid()
    ensures |s| == 19
  {
    FieldLengths(t);
    FormatZeroPadded(t.year, 4) + "-" + FormatZeroPadded(t.month, 2) + "-" + FormatZeroPadded(t.day, 2)
      + "_" + FormatZeroPadded(t.hour, 2) + "-" + FormatZeroPadded(t.minute, 2) + "-" + FormatZeroPadded(t.second, 2)
  }

  lemma FieldLengths(t: Timestamp)
    requires t.Valid()
    ensures |FormatZeroPadded(t.year, 4)| == 4
    ensures |FormatZeroPadded(t.month, 2)| == 2 && |FormatZeroPadded(t.day, 2)| == 2
    ensures |FormatZeroPadded(t.hour, 2)| == 2 && |FormatZeroPadded(t.minute, 2)| == 2
    ensures |FormatZeroPadded(t.second, 2)| == 2
  {
    assert Pow10(2) == 100 && Pow10(4) == 10000;
    ZeroPaddedRoundTrip(t.year, 4);
    ZeroPaddedRoundTrip(t.month, 2);
    ZeroPaddedRoundTrip(t.day, 2);
    ZeroPaddedRoundTrip(t.hour, 2);
    ZeroPaddedRoundTrip(t.minute, 2);
    ZeroPaddedRoundTrip(t.second, 2);
  }

  /** Reads a nineteen-character stamp back into a valid timestamp. */
  function ParseStamp(s: string): (r: Option<Timestamp>)
    ensures r.Some? ==> r.value.Valid()
  {
    if |s| != 19 || s[4] != '-' || s[7] != '-' || s[10] != '_' || s[13] != '-' || s[16] != '-' then None
    else
      var fields := [ParseDecimal(s[0..4]), ParseDecimal(s[5..7]), ParseDecimal(s[8..10]),
                     ParseDecimal(s[11..13]), ParseDecimal(s[14..16]), ParseDecimal(s[17..19])];
      if exists i :: 0 <= i < 6 && fields[i].None? then None
      else
        var t := Timestamp(fields[0].value, fields[1].value, fields[2].value,
                           fields[3].value, fields[4].value, fields[5].value);
        if t.Valid() then Some(t) else None
  }

  /** Where each field sits in a string laid out as a stamp. */
  lemma StampLayout(y: string, mo: string, d: string, h: string, mi: string, se: string)
    requires |y| == 4 && |mo| == 2 && |d| == 2 && |h| == 2 && |mi| == 2 && |se| == 2
    ensures var s := y + "-" + mo + "-" + d + "_" + h + "-" + mi + "-" + se;
      && |s| == 19 && s[4] == '-' && s[7] == '-' && s[10] == '_' && s[13] == '-' && s[16] == '-'
      && s[0..4] == y && s[5..7] == mo && s[8..10] == d
      && s[11..13] == h && s[14..16] == mi && s[17..19] == se
  {
    var s := y + "-" + mo + "-" + d + "_" + h + "-" + mi + "-" + se;
    assert s[0..4] == y by { assert forall i :: 0 <= i < 4 ==> s[i] == y[i]; }
    assert s[5..7] == mo by { assert forall i :: 0 <= i < 2 ==> s[5 + i] == mo[i]; }
    assert s[8..10] == d by { assert forall i :: 0 <= i < 2 ==> s[8 + i] == d[i]; }
    assert s[11..13] == h by { assert forall i :: 0 <= i < 2 ==> s[11 + i] == h[i]; }
    assert s[14..16] == mi by { assert forall i :: 0 <= i < 2 ==> s[14 + i] == mi[i]; }
    assert s[17..19] == se by { assert forall i :: 0 <= i < 2 ==> s[17 + i] == se[i]; }
  }

  /** A stamp-shaped string whose six fields read as the fields of a valid
      timestamp parses to it. */
  lemma ParseStampOf(s: string, t: Timestamp)
    requires t.Valid() && |s| == 19
    requires s[4] == '-' && s[7] == '-' && s[10] == '_' && s[13] == '-' && s[16] == '-'
    requires ParseDecimal(s[0..4]) == Some(t.year) && ParseDecimal(s[5..7]) == Some(t.month)
    requires ParseDecimal(s[8..10]) == Some(t.day) && ParseDecimal(s[11..13]) == Some(t.hour)
    requires ParseDecimal(s[14..16]) == Some(t.minute) && ParseDecimal(s[17..19]) == Some(t.second)
    ensures ParseStamp(s) == Some(t)
  {
  }

  lemma StampRoundTrip(t: Timestamp)
    requires t.Valid()
    ensures ParseStamp(Stamp(t)) == Some(t)
  {
    assert Pow10(2) == 100 && Pow10(4) == 10000;
    var y, mo, d := FormatZeroPadded(t.year, 4), FormatZeroPadded(t.month, 2), FormatZeroPadded(t.day, 2);
    var h, mi, se := FormatZeroPadded(t.hour, 2), FormatZeroPadded(t.minute, 2), FormatZeroPadded(t.second, 2);
    ZeroPaddedRoundTrip(t.year, 4);
    ZeroPaddedRoundTrip(t.month, 2);
    ZeroPaddedRoundTrip(t.day, 2);
    ZeroPaddedRoundTrip(t.hour, 2);
    ZeroPaddedRoundTrip(t.minute, 2);
    ZeroPaddedRoundTrip(t.second, 2);
    StampLayout(y, mo, d, h, mi, se);
    assert Stamp(t) == y + "-" + mo + "-" + d + "_" + h + "-" + mi + "-" + se;
    ParseStampOf(Stamp(t), t);
  }

  /** Position of the last `c` in `s`, or -1 when there is none. */
  function LastIndexOf(s: string, c: char): (k: int)
    ensures -1 <= k < |s|
    ensures k >= 0 ==> s[k] == c
    ensures forall j :: k < j < |s| ==> s[j] != c
  {
    if s == [] then -1
    else if s[|s| - 1] == c then |s| - 1
    else LastIndexOf(s[..|s| - 1], c)
  }

  /** `file_name.rsplit('.', 1)[0]`: everything before the last '.', or the
      whole name when it has no '.'. A '.' in a directory component counts. */
  function Stem(fileName: string): (stem: string)
    ensures |stem| <= |fileName| && fileName[..|stem|] == stem
    ensures |stem| < |fileName| ==> fileName[|stem|] == '.'
  {
    var k := LastIndexOf(fileName, '.');
    if k < 0 then fileName else fileName[..k]
  }

  /** The stem is a prefix; without a '.' it is the whole name, and with one
      the name is the stem, a '.', and a dot-free remainder. */
  lemma StemSplits(fileName: string)
    ensures |Stem(fileName)| <= |fileName| && fileName[..|Stem(fileName)|] == Stem(fileName)
    ensures '.' !in fileName ==> Stem(fileName) == fileName
    ensures '.' in fileName ==>
      var n := |Stem(fileName)|;
      n < |fileName| && fileName[n] == '.' && '.' !in fileName[n + 1..]
  {
    var k := LastIndexOf(fileName, '.');
    if '.' in fileName {
      var j :| 0 <= j < |fileName| && fileName[j] == '.';
      assert k >= j;
    }
  }

  /** Conversely, a '.' followed by a dot-free extension is where the stem ends. */
  lemma StemOfExtension(stem: string, extension: string)
    requires '.' !in extension
    ensures Stem(stem + "." + extension) == stem
  {
    var s := stem + "." + extension;
    var k := LastIndexOf(s, '.');
    assert s[|stem|] == '.';
    assert s[..|stem|] == stem;
  }

  /** The path `save_results` writes to. */
  function OutputName(fileName: string, now: Timestamp): (name: string)
    requires now.Valid()
    ensures |name| == |Stem(fileName)| + 24
  {
    Stem(fileName) + "_" + Stamp(now) + ".txt"
  }

  /** Splits a saved name back into the source stem and the timestamp. */
  function ParseOutputName(name: string): (r: Option<(string, Timestamp)>)
    ensures r.Some? ==> r.value.1.Valid()
  {
    if |name| < 24 || name[|name| - 4..] != ".txt" || name[|name| - 24] != '_' then None
    else
      match ParseStamp(name[|name| - 23..|name| - 4])
      case None => None
      case Some(t) => Some((name[..|name| - 24], t))
  }

  lemma OutputNameRoundTrip(fileName: string, now: Timestamp)
    requires now.Valid()
    ensures ParseOutputName(OutputName(fileName, now)) == Some((Stem(fileName), now))
  {
    var name := OutputName(fileName, now);
    var n := |Stem(fileName)|;
    assert name[|name| - 4..] == ".txt";
    assert name[|name| - 24] == '_';
    assert name[|name| - 23..|name| - 4] == Stamp(now);
    assert name[..|name| - 24] == Stem(fileName);
    StampRoundTrip(now);
  }

  /** Two saves of the same file in different seconds get different names;
      the same source stem in the same second gives the same name. */
  lemma OutputNameInjective(f1: string, t1: Timestamp, f2: string, t2: Timestamp)
    requires t1.Valid() && t2.Valid()
    ensures OutputName(f1, t1) == OutputName(f2, t2) <==> Stem(f1) == Stem(f2) && t1 == t2
  {
    if OutputName(f1, t1) == OutputName(f2, t2) {
      OutputNameRoundTrip(f1, t1);
      OutputNameRoundTrip(f2, t2);
    }
  }

  lemma YearExample()
    ensures FormatZeroPadded(2024, 4) == "2024"
  {
    assert NatToDecimal(2) == "2";
    assert NatToDecimal(20) == "20";
    assert NatToDecimal(202) == "202";
    assert NatToDecimal(2024) == NatToDecimal(202) + "4";
  }

  lemma TwoDigitExample(n: nat)
    requires n < 10
    ensures FormatZeroPadded(n, 2) == "0" + [DigitChar(n)]
  {
  }

  lemma ClipStem()
    ensures Stem("clip.mp3") == "clip"
  {
    var s := "clip.mp3";
    assert s[..5] == "clip." && s[..6] == "clip.m" && s[..7] == "clip.mp";
    assert LastIndexOf(s[..5], '.') == 4;
    assert LastIndexOf(s[..6], '.') == 4;
    assert LastIndexOf(s[..7], '.') == 4;
  }

  lemma ExampleStamp()
    ensures Stamp(Timestamp(2024, 1, 2, 3, 4, 5)) == "2024-01-02_03-04-05"
  {
    YearExample();
    TwoDigitExample(1);
    TwoDigitExample(2);
    TwoDigitExample(3);
    TwoDigitExample(4);
    TwoDigitExample(5);
    assert DigitChar(1) == '1' && DigitChar(2) == '2' && DigitChar(3) == '3';
    assert DigitChar(4) == '4' && DigitChar(5) == '5';
  }

  /** "clip.mp3" saved at 2024-01-02 03:04:05. */
  lemma OutputNameExample()
    ensures OutputName("clip.mp3", Timestamp(2024, 1, 2, 3, 4, 5)) == "clip_2024-01-02_03-04-05.txt"
  {
    ClipStem();
    ExampleStamp();
    ExampleNameParts();
  }

  lemma ExampleNameParts()
    ensures "clip" + "_" + "2024-01-02_03-04-05" + ".txt" == "clip_2024-01-02_03-04-05.txt"
  {
    var stamp := "2024-01-02_03-04-05";
    assert "clip" + "_" + stamp == "clip_2024-01-02_03-04-05";
  }

  /** A '.' in a directory name is taken as the extension separator when the
      file name itself has none. */
  lemma StemDirectoryDot()
    ensures Stem("media.v2/clip") == "media"
  {
    StemOfExtension("media", "v2/clip");
    assert "media" + "." + "v2/clip" == "media.v2/clip";
  }
}
