/** The timestamp parser shared by the metrics (`parse_timestamp_to_seconds`): "HH:MM:SS(.fff)"
    to seconds, 0.0 for anything it cannot read. Fields are read as digit strings; the
    seconds field may carry a fractional part. */
module Utils {
  import opened Wrappers
  import opened Json
  import opened Decimal

  /** Python's `s.split(sep)`: the pieces between separators, "" pieces included. */
  function Split(s: string, sep: char): (parts: seq<string>)
    ensures |parts| >= 1
    ensures forall p | p in parts :: sep !in p
    decreases |s|
  {
    if s == [] then [""]
    else
      var rest := Split(s[1..], sep);
      if s[0] == sep then [""] + rest
      else [[s[0]] + rest[0]] + rest[1..]
  }

  /** `sep.join(parts)`, the inverse of `Split`. */
  function Join(parts: seq<string>, sep: char): string
    requires |parts| >= 1
    decreases |parts|
  {
    if |parts| == 1 then parts[0] else parts[0] + [sep] + Join(parts[1..], sep)
  }

  /** `s.count(c)`. */
  function CountChar(s: string, c: char): nat
    decreases |s|
  {
    if s == [] then 0 else (if s[0] == c then 1 else 0) + CountChar(s[1..], c)
  }

  /** Splitting loses nothing: joining the pieces gives the string back. */
  lemma {:induction false} SplitJoin(s: string, sep: char)
    ensures Join(Split(s, sep), sep) == s
    decreases |s|
  {
    if s != [] {
      SplitJoin(s[1..], sep);
      var rest := Split(s[1..], sep);
      if s[0] != sep && |rest| > 1 {
        assert ([[s[0]] + rest[0]] + rest[1..])[1..] == rest[1..];
      }
    }
  }

  /** There is one more piece than there are separators. */
  lemma {:induction false} SplitCount(s: string, sep: char)
    ensures |Split(s, sep)| == CountChar(s, sep) + 1
    decreases |s|
  {
    if s != [] {
      SplitCount(s[1..], sep);
    }
  }

  lemma {:induction false} SplitNoSep(s: string, sep: char)
    requires sep !in s
    ensures Split(s, sep) == [s]
    decreases |s|
  {
    if s != [] {
      assert s[0] != sep && s[1..] == s[1..];
      assert sep !in s[1..];
      SplitNoSep(s[1..], sep);
      assert [s[0]] + s[1..] == s;
    }
  }

  lemma {:induction false} SplitAfter(a: string, rest: string, sep: char)
    requires sep !in a
    ensures Split(a + [sep] + rest, sep) == [a] + Split(rest, sep)
    decreases |a|
  {
    if a == [] {
      assert a + [sep] + rest == [sep] + rest;
      assert ([sep] + rest)[1..] == rest;
    } else {
      assert (a + [sep] + rest)[1..] == a[1..] + [sep] + rest;
      SplitAfter(a[1..], rest, sep);
      assert [a[0]] + a[1..] == a;
    }
  }

  /** A field `int()` accepts: one or more decimal digits. */
  predicate IsIntField(p: string) {
    |p| > 0 && IsDigits(p)
  }

  /** The number a "whole.frac" decimal denotes. */
  function DecimalValue(whole: string, frac: string): (r: real)
    requires IsDigits(whole) && IsDigits(frac)
    ensures r >= 0.0
  {
    Value(whole) as real + Value(frac) as real / Pow10(|frac|) as real
  }

  /** `int(p)` for a digit field; None where Python raises ValueError. */
  function ParseInt(p: string): Option<nat> {
    if IsIntField(p) then Some(Value(p)) else None
  }

  /** `float(p)` for "digits", "digits.digits", "digits." and ".digits"; None where the model
      does not accept the text. */
  function ParseFloat(p: string): (r: Option<real>)
    ensures r.Some? ==> r.value >= 0.0
  {
    var pieces := Split(p, '.');
    if |pieces| == 1 then
      if IsIntField(p) then Some(Value(p) as real) else None
    else if |pieces| == 2 && IsDigits(pieces[0]) && IsDigits(pieces[1])
            && |pieces[0]| + |pieces[1]| > 0 then
      Some(DecimalValue(pieces[0], pieces[1]))
    else None
  }

  /** `parse_timestamp_to_seconds(ts)`: `h * 3600 + m * 60 + s` for "h:m:s", and 0.0 for
      None, a non-string, "", a wrong number of ':'-separated parts or a part that does not
      parse. Never fails. */
  function ParseTimestampToSeconds(ts: Json): (r: real)
    ensures r >= 0.0
    ensures r != 0.0 ==> ts.JStr? && CountChar(ts.s, ':') == 2
  {
    if !Truthy(ts) || !ts.JStr? then 0.0 else TextSeconds(ts.s)
  }

  function TextSeconds(s: string): (r: real)
    ensures r >= 0.0
    ensures r != 0.0 ==> CountChar(s, ':') == 2
  {
      var parts := Split(s, ':');
      SplitCount(s, ':');
      if |parts| != 3 then 0.0
      else
        var h, m, sec := ParseInt(parts[0]), ParseInt(parts[1]), ParseFloat(parts[2]);
        if h.None? || m.None? || sec.None? then 0.0
        else (h.value * 3600 + m.value * 60) as real + sec.value
  }

  /** A timestamp whose hour and minute fields are digit strings and whose seconds field
      `float()` reads as `s` is worth `h * 3600 + m * 60 + s` seconds. */
  lemma FieldsValue(h: string, m: string, sec: string)
    requires IsIntField(h) && IsIntField(m) && ':' !in sec && ParseFloat(sec).Some?
    ensures ParseTimestampToSeconds(JStr(h + ":" + m + ":" + sec))
            == (Value(h) * 3600 + Value(m) * 60) as real + ParseFloat(sec).value
  {
    assert ':' !in h by { assert forall i :: 0 <= i < |h| ==> IsDigit(h[i]); }
    assert ':' !in m by { assert forall i :: 0 <= i < |m| ==> IsDigit(m[i]); }
    var s := h + ":" + m + ":" + sec;
    assert s == h + [':'] + (m + [':'] + sec);
    SplitAfter(h, m + [':'] + sec, ':');
    SplitAfter(m, sec, ':');
    SplitNoSep(sec, ':');
    assert Split(s, ':') == [h, m, sec];
  }

  /** "digits.digits" is read as the decimal it spells. */
  lemma DecimalFieldValue(whole: string, frac: string)
    requires IsDigits(whole) && IsDigits(frac) && |whole| + |frac| > 0
    ensures ParseFloat(whole + "." + frac) == Some(DecimalValue(whole, frac))
  {
    assert '.' !in whole by { assert forall i :: 0 <= i < |whole| ==> IsDigit(whole[i]); }
    assert '.' !in frac by { assert forall i :: 0 <= i < |frac| ==> IsDigit(frac[i]); }
    SplitAfter(whole, frac, '.');
    SplitNoSep(frac, '.');
  }

  /** With the hour and minute fields fixed, a later seconds field gives a later time. */
  lemma SecondsMonotone(h: string, m: string, s1: string, s2: string)
    requires IsIntField(h) && IsIntField(m)
    requires ':' !in s1 && ':' !in s2
    requires ParseFloat(s1).Some? && ParseFloat(s2).Some?
    requires ParseFloat(s1).value < ParseFloat(s2).value
    ensures ParseTimestampToSeconds(JStr(h + ":" + m + ":" + s1))
            < ParseTimestampToSeconds(JStr(h + ":" + m + ":" + s2))
  {
    FieldsValue(h, m, s1);
    FieldsValue(h, m, s2);
  }

  /** Any string the parser does not map to 0.0 is made of two digit fields and a seconds
      field, joined by ':'. */
  lemma NonZeroIsWellFormed(s: string)
    requires ParseTimestampToSeconds(JStr(s)) != 0.0
    ensures exists h, m, sec :: s == h + ":" + m + ":" + sec && IsIntField(h) && IsIntField(m)
                                && ':' !in sec && ParseFloat(sec).Some?
  {
    var parts := Split(s, ':');
    SplitJoin(s, ':');
    assert parts[2] in parts;
    assert Join(parts[2..], ':') == parts[2];
    assert Join(parts[1..], ':') == parts[1] + ":" + parts[2];
    assert s == parts[0] + ":" + parts[1] + ":" + parts[2];
  }

  /** The "HH:MM:SS.mmm" rendering of a time of day with milliseconds. */
  function FormatTimestamp(h: nat, m: nat, sec: nat, ms: nat): string {
    PadZeros(h, 2) + ":" + PadZeros(m, 2) + ":" + PadZeros(sec, 2) + "." + PadZeros(ms, 3)
  }

  /** Parsing a rendered timestamp gives back its time in seconds. */
  lemma FormatRoundTrip(h: nat, m: nat, sec: nat, ms: nat)
    requires ms < 1000
    ensures ParseTimestampToSeconds(JStr(FormatTimestamp(h, m, sec, ms)))
            == (h * 3600 + m * 60 + sec) as real + ms as real / 1000.0
  {
    var hs, ms', ss, fs := PadZeros(h, 2), PadZeros(m, 2), PadZeros(sec, 2), PadZeros(ms, 3);
    PadZerosValue(h, 2);
    PadZerosValue(m, 2);
    PadZerosValue(sec, 2);
    PadZerosValue(ms, 3);
    PadZerosLength(ms, 3);
    assert Pow10(|fs|) == 1000 by { assert Pow10(3) == 10 * Pow10(2); }
    DecimalFieldValue(ss, fs);
    var secField := ss + "." + fs;
    assert DecimalValue(ss, fs) == sec as real + ms as real / 1000.0 by {
      assert Value(ss) == sec && Value(fs) == ms;
      assert Pow10(|fs|) as real == 1000.0;
    }
    assert ':' !in secField by {
      assert forall i :: 0 <= i < |ss| ==> IsDigit(ss[i]);
      assert forall i :: 0 <= i < |fs| ==> IsDigit(fs[i]);
    }
    FieldsValue(hs, ms', secField);
    assert FormatTimestamp(h, m, sec, ms) == hs + ":" + ms' + ":" + secField;
  }

  /** The default the pipeline uses for a missing timestamp is worth 0 seconds. */
  lemma ZeroTimestamp(s: string)
    requires s == "00:00:00.000"
    ensures ParseTimestampToSeconds(JStr(s)) == 0.0
  {
    var z2, z3 := Zeros(2), Zeros(3);
    assert z2 == "00" && z3 == "000";
    ZeroFields(z2, z3);
    assert s == z2 + ":" + z2 + ":" + z2 + "." + z3;
  }

  lemma ZeroFields(z2: string, z3: string)
    requires z2 == Zeros(2) && z3 == Zeros(3)
    ensures ParseTimestampToSeconds(JStr(z2 + ":" + z2 + ":" + z2 + "." + z3)) == 0.0
  {
    ValueZeros(2);
    ValueZeros(3);
    DecimalFieldValue(z2, z3);
    var sec := z2 + "." + z3;
    assert ':' !in sec by { assert forall i :: 0 <= i < |z2| ==> IsDigit(z2[i]); assert forall i :: 0 <= i < |z3| ==> IsDigit(z3[i]); }
    FieldsValue(z2, z2, sec);
    assert DecimalValue(z2, z3) == 0.0;
    assert z2 + ":" + z2 + ":" + z2 + "." + z3 == z2 + ":" + z2 + ":" + sec;
  }

  /** None and "bad" are 0.0. */
  lemma ParserZeroExamples()
    ensures ParseTimestampToSeconds(JNull) == 0.0
    ensures ParseTimestampToSeconds(JStr("bad")) == 0.0
  {
    assert CountChar("bad", ':') == 0;
  }
}
