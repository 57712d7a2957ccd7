/** What the configuration lookups return on text of any origin, character by character. */
module AnyText {
  import opened Basics
  import opened Text
  import opened IntScanner
  import opened Config
  import opened RoundTrip

  // ---- Numbers ----

  predicate EndsValue(c: char) {
    c == ',' || c == '}' || c == '\r' || c == '\n'
  }

  /** The value runs up to the first comma, brace or line end. */
  predicate CutAt(value: string, rest: string) {
    (forall i :: 0 <= i < |value| ==> !EndsValue(value[i])) && (rest != "" ==> EndsValue(rest[0]))
  }

  lemma IntAtCut(front: string, value: string, rest: string)
    requires CutAt(value, rest) && value + rest != ""
    ensures IntAt(front + (value + rest), |front|) == AsLookup(Atoi(value))
  {
    var s, end := front + (value + rest), |front + value|;
    assert forall i :: |front| <= i < end ==> s[i] == value[i - |front|];
    assert s[|front|..end] == value;
    if rest != "" {
      assert s[end] == rest[0];
      FirstAtIs(s, INT_END, true, |front|, end);
    } else {
      assert FirstAt(s, INT_END, true, |front|).None?;
    }
  }

  lemma IntFromCut(gap: string, pad: string, value: string, rest: string, default: int)
    requires Free(gap, ':') && IsBlank(pad) && StartsValue(value + rest) && CutAt(value, rest)
    ensures IntFrom(gap + ":" + pad + (value + rest), 0, default) == AsLookup(Atoi(value))
  {
    ValueStartOf(gap, pad, value + rest);
    IntAtCut(gap + ":" + pad, value, rest);
  }

  /** Behind a key that is not mentioned before, the value up to its end is handed to `atoi`. */
  lemma IntIsAtoi(front: string, key: string, gap: string, pad: string, value: string, rest: string, default: int)
    requires Free(key, '"') && !Mentions(front, key)
    requires Free(gap, ':') && IsBlank(pad) && StartsValue(value + rest) && CutAt(value, rest)
    ensures GetInt(front + Quoted(key) + (gap + ":" + pad + (value + rest)), key, default) == AsLookup(Atoi(value))
  {
    IntFromCut(gap, pad, value, rest, default);
    ReadBehind(front, key, gap + ":" + pad + (value + rest), default);
  }

  /** So a lookup gives the place value of the digits behind white space and a sign; leading zeros are allowed, and
      whatever else follows up to the end of the value is passed over. Without digits it is 0. */
  lemma {:induction false} IntIsPlaceValue(front: string, key: string, gap: string, pad: string, spaces: string,
                                           sign: string, digits: string, unit: string, rest: string, default: int)
    requires Free(key, '"') && !Mentions(front, key) && Free(gap, ':') && IsBlank(pad)
    requires AllCSpaces(spaces) && SignedText(sign, digits, unit)
    requires var value := spaces + (sign + digits + unit); StartsValue(value + rest) && CutAt(value, rest)
    ensures GetInt(front + Quoted(key) + (gap + ":" + pad + (spaces + (sign + digits + unit) + rest)), key, default) ==
            var n := Signed(sign, digits); if -2147483648 <= n <= 2147483647 then Value(n) else Overflow
  {
    IntIsAtoi(front, key, gap, pad, spaces + (sign + digits + unit), rest, default);
    AtoiIsPlaceValue(spaces, sign, digits, unit);
  }

  lemma {:induction false} PlaceValueOf61952()
    ensures AllDigits("61952") && PlaceValue("61952") == 61952
  {
    assert "61952"[1..] == "1952" && "1952"[1..] == "952" && "952"[1..] == "52" && "52"[1..] == "2" && "2"[1..] == "";
    assert Power10(1) == 10 && Power10(2) == 100 && Power10(3) == 1000 && Power10(4) == 10000;
    assert PlaceValue("2") == 2 && PlaceValue("52") == 52;
    assert PlaceValue("952") == 952 && PlaceValue("1952") == 1952;
  }

  lemma StripWidthSplits()
    ensures "{" + Quoted("strip_width") + ("" + ":" + " " + ("61952" + "}")) == "{\"strip_width\": 61952}"
  {
  }

  /** The strip width the field guide works out is read as the number it looks like. */
  lemma {:induction false} StripWidthIsRead(default: int)
    ensures GetInt("{\"strip_width\": 61952}", "strip_width", default) == Value(61952)
  {
    NoQuoteOnePiece("{");
    PlaceValueOf61952();
    AtoiIsPlaceValue("", "", "61952", "");
    assert "" + ("" + "61952" + "") == "61952";
    IntIsAtoi("{", "strip_width", "", " ", "61952", "}", default);
    StripWidthSplits();
  }

  // ---- Strings ----

  /** A quoted value runs up to the next quote. */
  lemma StrIsQuoted(front: string, key: string, gap: string, pad: string, text: string, rest: string)
    requires Free(key, '"') && !Mentions(front, key) && Free(gap, ':') && IsBlank(pad) && Free(text, '"')
    ensures GetStr(front + Quoted(key) + (gap + ":" + pad + (Quoted(text) + rest)), key) == Value(text)
  {
    QuotedFrom(gap, pad, text, rest);
    ReadBehind(front, key, gap + ":" + pad + (Quoted(text) + rest), 0);
  }

  lemma QuotedFrom(gap: string, pad: string, text: string, rest: string)
    requires Free(gap, ':') && IsBlank(pad) && Free(text, '"')
    ensures StrFrom(gap + ":" + pad + (Quoted(text) + rest), 0) == Value(text)
  {
    assert StartsValue(Quoted(text) + rest) by {
      assert (Quoted(text) + rest)[0] == '"';
    }
    ValueStartOf(gap, pad, Quoted(text) + rest);
    StrAtShown(gap + ":" + pad, text, rest);
    Regroup(gap + ":" + pad, Quoted(text), rest);
  }

  lemma StrAtUnquoted(front: string, value: string)
    requires value != "" && (value[0] != '"' || Free(value[1..], '"'))
    ensures StrAt(front + value, |front|) == ""
  {
    var s, p := front + value, |front|;
    assert s[p] == value[0];
    assert forall i :: p + 1 <= i < |s| ==> s[i] == value[1..][i - p - 1];
  }

  lemma StrFromUnquoted(gap: string, pad: string, value: string)
    requires Free(gap, ':') && IsBlank(pad) && StartsValue(value) && (value[0] != '"' || Free(value[1..], '"'))
    ensures StrFrom(gap + ":" + pad + value, 0) == Value("")
  {
    ValueStartOf(gap, pad, value);
    StrAtUnquoted(gap + ":" + pad, value);
  }

  /** A value without quotes, or without a closing one, reads as the empty string. */
  lemma StrIsNotQuoted(front: string, key: string, gap: string, pad: string, value: string)
    requires Free(key, '"') && !Mentions(front, key) && Free(gap, ':') && IsBlank(pad) && StartsValue(value)
    requires value[0] != '"' || Free(value[1..], '"')
    ensures GetStr(front + Quoted(key) + (gap + ":" + pad + value), key) == Value("")
  {
    StrFromUnquoted(gap, pad, value);
    ReadBehind(front, key, gap + ":" + pad + value, 0);
  }

  // ---- Nothing to read ----

  /** Without a colon behind the key a lookup answers as if the key were missing. */
  lemma NoColonNoValue(front: string, key: string, behind: string, default: int)
    requires Free(key, '"') && !Mentions(front, key) && Free(behind, ':')
    ensures GetInt(front + Quoted(key) + behind, key, default) == Value(default)
    ensures GetStr(front + Quoted(key) + behind, key) == Value("")
  {
    ReadBehind(front, key, behind, default);
  }

  /** So it does where a comment in front of the value runs to the end of the text. */
  lemma CommentToTheEnd(front: string, key: string, gap: string, pad: string, comment: string, default: int)
    requires Free(key, '"') && !Mentions(front, key) && Free(gap, ':') && IsBlank(pad) && Free(comment, '\n')
    ensures GetInt(front + Quoted(key) + (gap + ":" + pad + ("//" + comment)), key, default) == Value(default)
    ensures GetStr(front + Quoted(key) + (gap + ":" + pad + ("//" + comment)), key) == Value("")
  {
    ReadBehind(front, key, gap + ":" + pad + ("//" + comment), default);
    CommentWithoutEnd(gap, pad, comment);
  }

  lemma CommentWithoutEnd(gap: string, pad: string, comment: string)
    requires Free(gap, ':') && IsBlank(pad) && Free(comment, '\n')
    ensures ValueStart(gap + ":" + pad + ("//" + comment), 0) == Absent
  {
    var s, p := gap + ":" + pad + ("//" + comment), |gap| + 1 + |pad|;
    assert forall i :: 0 <= i < |gap| ==> s[i] == gap[i];
    FirstAtIs(s, {':'}, true, 0, |gap|);
    assert forall i :: |gap| + 1 <= i < p ==> s[i] == pad[i - |gap| - 1];
    assert s[p] == '/' && s[p + 1] == '/';
    FirstAtIs(s, SPACES, false, |gap| + 1, p);
    assert forall i :: p + 2 <= i < |s| ==> s[i] == comment[i - p - 2];
    assert FirstAt(s, {'\n'}, true, p).None?;
  }

  // ---- Lists ----

  lemma {:induction false} RunIsPlaceValue(lead: string, digits: string, rest: string)
    requires DigitFree(lead) && digits != "" && AllDigits(digits) && (rest != "" ==> !IsDigit(rest[0]))
    ensures Values(lead + (digits + rest), 0) == [PlaceValue(digits)] + Values(rest, 0)
  {
    SkipLead(lead, digits + rest);
    Regroup(lead, digits, rest);
    FirstRun(lead, digits, rest);
    DigitsNumber(digits);
    ValuesInSuffix(lead + digits, rest, 0);
  }

  lemma {:induction false} ValuesOfTwo()
    ensures Values("5, 12", 0) == [5, 12]
  {
    SmallPlaceValues();
    ValuesCons("", "5", ", 12", "5, 12", [12]);
    ValuesCons(", ", "12", "", ", 12", []);
  }

  lemma {:induction false} ValuesCons(lead: string, digits: string, rest: string, s: string, vs: seq<int>)
    requires DigitFree(lead) && digits != "" && AllDigits(digits) && (rest != "" ==> !IsDigit(rest[0]))
    requires s == lead + (digits + rest)
    ensures Values(rest, 0) == vs ==> Values(s, 0) == [PlaceValue(digits)] + vs
  {
    RunIsPlaceValue(lead, digits, rest);
  }

  lemma {:induction false} SmallPlaceValues()
    ensures PlaceValue("5") == 5 && PlaceValue("12") == 12
  {
    assert "5"[1..] == "" && "12"[1..] == "2" && "2"[1..] == "";
    assert Power10(1) == 10 && PlaceValue("2") == 2;
  }

  /** A list is read from its brackets on any text behind the key. */
  lemma ListIsRead(front: string, key: string, gap: string, inner: string, rest: string)
    requires Free(key, '"') && !Mentions(front, key) && Free(gap, '[') && Free(inner, ']')
    ensures IntArray(front + Quoted(key) + (gap + "[" + inner + "]" + rest), key) == Checked(Values(inner, 0))
  {
    InnerOf(gap, inner, rest);
    ReadBehind(front, key, gap + "[" + inner + "]" + rest, 0);
  }

  lemma FormatsSplit()
    ensures "{" + Quoted("formats") + (": " + "[" + "5, 12" + "]" + "}") == "{\"formats\": [5, 12]}"
  {
  }

  /** A list in a document that this model's printer has not written. */
  lemma {:induction false} FormatsAreRead()
    ensures IntArray("{\"formats\": [5, 12]}", "formats") == Some([5, 12])
  {
    FormatsSplit();
    assert !Mentions("{", "formats") by {
      NoQuoteOnePiece("{");
    }
    ListIsRead("{", "formats", ": ", "5, 12", "}");
    ValuesOfTwo();
    CheckedTwo();
  }

  lemma CheckedTwo()
    ensures Checked([5, 12]) == Some([5, 12])
  {
  }
}
