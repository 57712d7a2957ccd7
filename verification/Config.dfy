/** The configuration reader: lookups by substring search in the text, and what they return on printed documents. */
module Config {
  import opened Basics
  import opened Text
  import opened IntScanner

  // ---- The lookups ----

  /** `Overflow`: the number does not fit an int, where C leaves the result undefined. `OutOfText`: nothing but spaces
      follows the colon, and the code indexes past the end of the text. */
  datatype Lookup<+T> = Value(value: T) | Overflow | OutOfText

  function AsLookup(v: Option<int>): Lookup<int> {
    if v.None? then Overflow else Value(v.value)
  }

  const SPACES: set<char> := {' ', '\t', '\r', '\n'}
  const INT_END: set<char> := {',', '}', '\r', '\n'}

  function Quoted(key: string): string {
    "\"" + key + "\""
  }

  /** On a comment, the position of the newline that ends it, if there is one. */
  function SkipComment(s: string, p: nat): Option<nat>
    requires p < |s|
  {
    if p + 1 < |s| && s[p] == '/' && s[p + 1] == '/' then FirstAt(s, {'\n'}, true, p) else Some(p)
  }

  datatype Start = Absent | StartAt(pos: nat) | Beyond

  /** Where the value starts, given where the colon is. */
  function StartBehind(s: string, colon: nat): (r: Start)
    ensures r.StartAt? ==> r.pos < |s|
  {
    var p := FirstAt(s, SPACES, false, colon + 1);
    if p.None? then Beyond
    else
      var q := SkipComment(s, p.value);
      if q.None? then Absent else StartAt(q.value)
  }

  /** Where the value behind a key that ends at `from` starts. */
  function ValueStart(s: string, from: nat): (r: Start)
    ensures r.StartAt? ==> r.pos < |s|
  {
    var colon := FirstAt(s, {':'}, true, from);
    if colon.None? then Absent else StartBehind(s, colon.value)
  }

  /** A value must be quoted to be read as a string. */
  function StrAt(s: string, p: nat): string
    requires p < |s|
  {
    if s[p] != '"' then ""
    else
      var end := FirstAt(s, {'"'}, true, p + 1);
      if end.None? then "" else s[p + 1..end.value]
  }

  function StrFrom(s: string, from: nat): Lookup<string> {
    match ValueStart(s, from)
    case Absent => Value("")
    case Beyond => OutOfText
    case StartAt(p) => Value(StrAt(s, p))
  }

  function IntAt(s: string, p: nat): Lookup<int>
    requires p < |s|
  {
    var end := FirstAt(s, INT_END, true, p);
    AsLookup(Atoi(s[p..if end.Some? then end.value else |s|]))
  }

  function IntFrom(s: string, from: nat, default: int): Lookup<int> {
    match ValueStart(s, from)
    case Absent => Value(default)
    case Beyond => OutOfText
    case StartAt(p) => IntAt(s, p)
  }

  /** The text between the brackets behind a key that ends at `from`. */
  function InnerFrom(s: string, from: nat): Option<string> {
    var open := FirstAt(s, {'['}, true, from);
    if open.None? then None
    else
      var close := FirstAt(s, {']'}, true, open.value);
      if close.None? then None else Some(s[open.value + 1..close.value])
  }

  function GetStr(json: string, key: string): Lookup<string> {
    var pos := Find(json, Quoted(key), 0);
    if pos.None? then Value("") else StrFrom(json, pos.value + |Quoted(key)|)
  }

  function GetInt(json: string, key: string, default: int): Lookup<int> {
    var pos := Find(json, Quoted(key), 0);
    if pos.None? then Value(default) else IntFrom(json, pos.value + |Quoted(key)|, default)
  }

  /** The list behind a key; nothing if `atoi` is undefined on one of its numbers. */
  function IntArray(json: string, key: string): Option<seq<int>> {
    var pos := Find(json, Quoted(key), 0);
    var inner := if pos.None? then None else InnerFrom(json, pos.value + |Quoted(key)|);
    if inner.None? then Some([]) else ReadInts(inner.value)
  }

  method GetIntArray(json: string, key: string) returns (out: Option<seq<int>>)
    ensures out == IntArray(json, key)
  {
    out := Some([]);
    var pos := Find(json, Quoted(key), 0);
    if pos.None? {
      return;
    }
    var open := FirstAt(json, {'['}, true, pos.value + |Quoted(key)|);
    if open.None? {
      return;
    }
    var close := FirstAt(json, {']'}, true, open.value);
    if close.None? {
      return;
    }
    out := ScanInts(json[open.value + 1..close.value]);
  }

  // ---- The lookups on any text ----

  predicate IsBlankChar(c: char) {
    c == ' ' || c == '\t' || c == '\r' || c == '\n'
  }

  predicate IsBlank(s: string) {
    forall i :: 0 <= i < |s| ==> IsBlankChar(s[i])
  }

  /** The first colon from `from` on has only blanks behind it. */
  ghost predicate NothingBehindColon(s: string, from: nat) {
    exists colon :: from <= colon < |s| && s[colon] == ':'
                    && (forall i :: from <= i < colon ==> s[i] != ':')
                    && (forall i :: colon < i < |s| ==> IsBlankChar(s[i]))
  }

  lemma BeyondIsNothing(s: string, from: nat)
    ensures ValueStart(s, from) == Beyond <==> NothingBehindColon(s, from)
  {
    var colon := FirstAt(s, {':'}, true, from);
    if NothingBehindColon(s, from) {
      var c :| from <= c < |s| && s[c] == ':' && (forall i :: from <= i < c ==> s[i] != ':')
               && (forall i :: c < i < |s| ==> IsBlankChar(s[i]));
      FirstAtIs(s, {':'}, true, from, c);
    }
  }

  lemma ReadsBeyond(s: string, from: nat, default: int)
    ensures IntFrom(s, from, default) == OutOfText <==> NothingBehindColon(s, from)
    ensures StrFrom(s, from) == OutOfText <==> NothingBehindColon(s, from)
  {
    BeyondIsNothing(s, from);
    assert IntFrom(s, from, default) == OutOfText <==> ValueStart(s, from) == Beyond;
    assert StrFrom(s, from) == OutOfText <==> ValueStart(s, from) == Beyond;
  }

  /** A lookup runs out of the text exactly when the key is found, a colon follows, and nothing but blanks follows the
      first one. */
  lemma {:induction false} RunsOutOfText(json: string, key: string, default: int)
    ensures var pos := Find(json, Quoted(key), 0);
            var out := pos.Some? && NothingBehindColon(json, pos.value + |Quoted(key)|);
            (GetInt(json, key, default) == OutOfText <==> out) && (GetStr(json, key) == OutOfText <==> out)
  {
    var pos := Find(json, Quoted(key), 0);
    if pos.Some? {
      ReadsBeyond(json, pos.value + |Quoted(key)|, default);
    }
  }

  /** The first opening bracket from `from` on, and the first closing one behind it. */
  predicate Brackets(s: string, from: nat, open: nat, close: nat) {
    && from <= open < close < |s| && s[open] == '[' && s[close] == ']'
    && (forall i :: from <= i < open ==> s[i] != '[') && (forall i :: open < i < close ==> s[i] != ']')
  }

  /** The place values of the maximal digit runs of a text, from left to right, each run once. */
  ghost predicate ListsRuns(s: string, spans: seq<(nat, nat)>, vs: seq<int>) {
    && (forall i: nat, j: nat :: (i, j) in spans <==> MaximalRun(s, i, j))
    && SpansInOrder(spans, 0)
    && |vs| == |spans|
    && forall k :: 0 <= k < |vs| ==> spans[k].0 <= spans[k].1 <= |s| && vs[k] == PlaceValue(s[spans[k].0..spans[k].1])
  }

  lemma ValuesListRuns(s: string)
    ensures ListsRuns(s, Spans(s, 0), Values(s, 0))
  {
    forall i: nat, j: nat ensures (i, j) in Spans(s, 0) <==> MaximalRun(s, i, j) {
      SpansAreMaximalRuns(s, 0, i, j);
    }
    SpansFromLeftToRight(s, 0);
    SpansSpellValues(s, 0, 0);
    forall k | 0 <= k < |Values(s, 0)|
      ensures var (i, j) := Spans(s, 0)[k]; i <= j <= |s| && Values(s, 0)[k] == PlaceValue(s[i..j])
    {
      SpansSpellValues(s, 0, k);
    }
  }

  /** On any text: the list behind a key holds exactly the values of the maximal digit runs between the first opening
      bracket behind the key and the next closing one, in order. */
  lemma ArrayListsRuns(json: string, key: string, pos: nat, open: nat, close: nat)
    requires Find(json, Quoted(key), 0) == Some(pos) && Brackets(json, pos + |Quoted(key)|, open, close)
    ensures var inner := json[open + 1..close];
            ListsRuns(inner, Spans(inner, 0), Values(inner, 0)) && IntArray(json, key) == Checked(Values(inner, 0))
  {
    FirstAtIs(json, {'['}, true, pos + |Quoted(key)|, open);
    FirstAtIs(json, {']'}, true, open, close);
    ValuesListRuns(json[open + 1..close]);
  }

  /** Without the key, or without such brackets behind it, the list is empty. */
  lemma NoBracketsNoList(json: string, key: string, from: nat)
    requires Find(json, Quoted(key), 0).Some? ==> from == Find(json, Quoted(key), 0).value + |Quoted(key)|
    requires Find(json, Quoted(key), 0).Some? ==> forall open: nat, close: nat :: !Brackets(json, from, open, close)
    ensures IntArray(json, key) == Some([])
  {
    if Find(json, Quoted(key), 0).Some? {
      var open := FirstAt(json, {'['}, true, from);
      var close := if open.Some? then FirstAt(json, {']'}, true, open.value) else None;
      assert open.Some? && close.Some? ==> Brackets(json, from, open.value, close.value);
    }
  }

  // ---- The lookups see only the text behind the key ----

  lemma CommentInSuffix(a: string, b: string, p: nat)
    requires p < |b|
    ensures SkipComment(a + b, |a| + p) == Shift(SkipComment(b, p), |a|)
  {
    FirstAtInSuffix(a, b, {'\n'}, true, p);
    assert (a + b)[|a| + p] == b[p];
    assert p + 1 < |b| ==> (a + b)[|a| + p + 1] == b[p + 1];
  }

  lemma StartBehindInSuffix(a: string, b: string, colon: nat)
    ensures StartBehind(a + b, |a| + colon) == ShiftStart(StartBehind(b, colon), |a|)
  {
    FirstAtInSuffix(a, b, SPACES, false, colon + 1);
    var p := FirstAt(b, SPACES, false, colon + 1);
    if p.Some? {
      CommentInSuffix(a, b, p.value);
    }
  }

  lemma ValueStartInSuffix(a: string, b: string)
    ensures ValueStart(a + b, |a|) == ShiftStart(ValueStart(b, 0), |a|)
  {
    var colon := FirstAt(b, {':'}, true, 0);
    assert FirstAt(a + b, {':'}, true, |a|) == Shift(colon, |a|) by {
      FirstAtInSuffix(a, b, {':'}, true, 0);
    }
    if colon.Some? {
      StartBehindInSuffix(a, b, colon.value);
    }
  }

  function ShiftStart(r: Start, n: nat): Start {
    if r.StartAt? then StartAt(r.pos + n) else r
  }

  lemma StrAtInSuffix(a: string, b: string, p: nat)
    requires p < |b|
    ensures StrAt(a + b, |a| + p) == StrAt(b, p)
  {
    SliceInSuffix(a, b, p, p);
    FirstAtInSuffix(a, b, {'"'}, true, p + 1);
    var end := FirstAt(b, {'"'}, true, p + 1);
    if end.Some? {
      SliceInSuffix(a, b, p + 1, end.value);
    }
  }

  lemma StrInSuffix(a: string, b: string)
    ensures StrFrom(a + b, |a|) == StrFrom(b, 0)
  {
    ValueStartInSuffix(a, b);
    if ValueStart(b, 0).StartAt? {
      StrAtInSuffix(a, b, ValueStart(b, 0).pos);
    }
  }

  lemma IntAtInSuffix(a: string, b: string, p: nat)
    requires p < |b|
    ensures IntAt(a + b, |a| + p) == IntAt(b, p)
  {
    FirstAtInSuffix(a, b, INT_END, true, p);
    var end := FirstAt(b, INT_END, true, p);
    SliceInSuffix(a, b, p, if end.Some? then end.value else |b|);
  }

  lemma IntInSuffix(a: string, b: string, default: int)
    ensures IntFrom(a + b, |a|, default) == IntFrom(b, 0, default)
  {
    ValueStartInSuffix(a, b);
    if ValueStart(b, 0).StartAt? {
      IntAtInSuffix(a, b, ValueStart(b, 0).pos);
    }
  }

  lemma InnerInSuffix(a: string, b: string)
    ensures InnerFrom(a + b, |a|) == InnerFrom(b, 0)
  {
    FirstAtInSuffix(a, b, {'['}, true, 0);
    var open := FirstAt(b, {'['}, true, 0);
    if open.Some? {
      FirstAtInSuffix(a, b, {']'}, true, open.value);
      var close := FirstAt(b, {']'}, true, open.value);
      if close.Some? {
        assert (a + b)[|a| + open.value + 1..|a| + close.value] == b[open.value + 1..close.value];
      }
    }
  }

  // ---- Documents ----

  /** `Dec` is a number with a decimal part: its integer part, and the digits behind the point. */
  datatype Setting = Int(n: int) | Dec(whole: int, digits: string) | Str(s: string) | Arr(inner: string)

  /** One key with its value. `lead` is whatever is printed in front of the key: punctuation behind the previous
      value, line breaks, indentation, comments. `gap` and `pad` stand before and behind the colon. */
  datatype Entry = Entry(lead: string, key: string, gap: string, pad: string, setting: Setting)

  function Show(v: Setting): string {
    match v
    case Int(n) => ShowInt(n)
    case Dec(whole, digits) => ShowInt(whole) + "." + digits
    case Str(s) => Quoted(s)
    case Arr(inner) => "[" + inner + "]"
  }

  /** What is printed behind the key of an entry, up to the end of its value. */
  function Tail(e: Entry): string {
    e.gap + ":" + e.pad + Show(e.setting)
  }

  function Print(entries: seq<Entry>, trail: string): string {
    if entries == [] then trail
    else entries[0].lead + Quoted(entries[0].key) + Tail(entries[0]) + Print(entries[1..], trail)
  }

  predicate Free(s: string, c: char) {
    forall i :: 0 <= i < |s| ==> s[i] != c
  }

  predicate IsNameChar(c: char) {
    IsDigit(c) || 'a' <= c <= 'z' || 'A' <= c <= 'Z' || c == '_'
  }

  predicate IsName(s: string) {
    s != "" && forall i :: 0 <= i < |s| ==> IsNameChar(s[i])
  }

  predicate WellFormedSetting(v: Setting) {
    match v
    case Int(_) => true
    case Dec(_, digits) => AllDigits(digits)
    case Str(s) => Free(s, '"')
    case Arr(inner) => Free(inner, '"') && Free(inner, ']')
  }

  /** Some punctuation, space or quote sets the text off from the value in front of it. */
  predicate SetOff(s: string) {
    s != "" ==> !IsNameChar(s[0])
  }

  /** Keys are names, and only blanks stand between colon and value; comments may hold anything, quotes included. */
  predicate WellFormedEntry(e: Entry) {
    && SetOff(e.lead)
    && IsName(e.key)
    && Free(e.gap, '"') && Free(e.gap, ':') && Free(e.gap, '[')
    && IsBlank(e.pad)
    && WellFormedSetting(e.setting)
  }

  predicate StartsNoNumber(s: string) {
    s != "" ==> !IsDigit(s[0])
  }

  predicate WellFormed(entries: seq<Entry>, trail: string) {
    if entries == [] then SetOff(trail) else WellFormedEntry(entries[0]) && WellFormed(entries[1..], trail)
  }

  // ---- Where a quoted key is found ----

  predicate Begins(s: string, pat: string) {
    Occurs(s, pat, 0)
  }

  lemma NeedsQuote(s: string, key: string, i: nat)
    ensures Occurs(s, Quoted(key), i) ==> i < |s| && s[i] == '"'
  {
    if Occurs(s, Quoted(key), i) {
      assert s[i] == s[i..i + |Quoted(key)|][0];
    }
  }

  lemma OccursAtQuote(a: string, b: string, key: string)
    ensures Occurs(a + "\"" + b, Quoted(key), |a|) <==> Begins(b, key + "\"")
  {
    var s := a + "\"" + b;
    if |a| + |Quoted(key)| <= |s| {
      assert s[|a|..|a| + |Quoted(key)|] == "\"" + b[0..|key| + 1];
      assert Quoted(key) == "\"" + (key + "\"");
      assert ("\"" + b[0..|key| + 1])[1..] == b[0..|key| + 1];
      assert Quoted(key)[1..] == key + "\"";
    }
  }

  /** A search for a quoted key passes over quote-free text and decides at the first quote. */
  lemma SearchAtQuote(a: string, b: string, key: string)
    requires Free(a, '"')
    ensures Find(a + "\"" + b, Quoted(key), 0) ==
            if Begins(b, key + "\"") then Some(|a|) else Shift(Find(b, Quoted(key), 0), |a| + 1)
  {
    var s := a + "\"" + b;
    forall i: nat | i < |a| ensures !Occurs(s, Quoted(key), i) {
      NeedsQuote(s, key, i);
      assert s[i] == a[i];
    }
    FindSkips(s, Quoted(key), 0, |a|);
    OccursAtQuote(a, b, key);
    FindInSuffix(a + "\"", b, Quoted(key), 0);
  }

  lemma SearchWithoutQuote(s: string, key: string)
    requires Free(s, '"')
    ensures Find(s, Quoted(key), 0) == None
  {
    forall i: nat | i < |s| ensures !Occurs(s, Quoted(key), i) {
      NeedsQuote(s, key, i);
    }
    FindSkips(s, Quoted(key), 0, |s|);
  }

  /** Between two quotes stands exactly one candidate. */
  lemma BeginsIsEqual(text: string, rest: string, key: string)
    requires Free(text, '"') && Free(key, '"')
    ensures Begins(text + "\"" + rest, key + "\"") <==> text == key
  {
    var s := text + "\"" + rest;
    assert s[|text|] == '"' && forall i :: 0 <= i < |text| ==> s[i] == text[i];
    if Begins(s, key + "\"") {
      assert forall i :: 0 <= i <= |key| ==> s[i] == s[0..|key| + 1][i];
      assert s[|key|] == '"' && forall i :: 0 <= i < |key| ==> s[i] == key[i];
      assert |text| == |key|;
      assert text == s[0..|key| + 1][..|key|];
    }
    if text == key {
      assert s[0..|key| + 1] == key + "\"";
    }
  }

  lemma NoQuoteNoKey(s: string, key: string)
    requires Free(s, '"')
    ensures !Begins(s, key + "\"")
  {
    if |key| < |s| {
      assert s[0..|key| + 1][|key|] == s[|key|];
    }
  }

  // ---- Texts cut at their quotes ----

  /** What stands before, between and behind the quotes of a text. */
  function Pieces(s: string): (pieces: seq<string>)
    ensures pieces != []
    decreases |s|
  {
    var quote := FirstAt(s, {'"'}, true, 0);
    if quote.None? then [s] else [s[..quote.value]] + Pieces(s[quote.value + 1..])
  }

  /** The key follows a quote of the text and runs up to the next quote, or to the end of the text. */
  predicate Mentions(s: string, key: string) {
    key in Pieces(s)[1..]
  }

  lemma NoQuoteOnePiece(s: string)
    requires Free(s, '"')
    ensures Pieces(s) == [s]
  {
  }

  lemma FirstPiece(a: string, b: string)
    requires Free(a, '"')
    ensures Pieces(a + "\"" + b) == [a] + Pieces(b)
  {
    var s := a + "\"" + b;
    assert forall i :: 0 <= i < |a| ==> s[i] == a[i];
    assert s[|a|] == '"';
    FirstAtIs(s, {'"'}, true, 0, |a|);
    assert s[..|a|] == a && s[|a| + 1..] == b;
  }

  lemma CutAtQuote(s: string) returns (a: string, b: string)
    requires !Free(s, '"')
    ensures Free(a, '"') && s == a + "\"" + b && Pieces(s) == [a] + Pieces(b)
  {
    var quote := FirstAt(s, {'"'}, true, 0);
    a, b := s[..quote.value], s[quote.value + 1..];
  }

  lemma {:induction false} PiecesConcat(a: string, b: string)
    ensures Pieces(a + "\"" + b) == Pieces(a) + Pieces(b)
    decreases |a|
  {
    if Free(a, '"') {
      NoQuoteOnePiece(a);
      FirstPiece(a, b);
    } else {
      var first, rest := CutAtQuote(a);
      PiecesConcat(rest, b);
      FirstPiece(first, rest + "\"" + b);
      Regroup4(first, rest, "\"", b);
      Regroup([first], Pieces(rest), Pieces(b));
    }
  }

  lemma Regroup<T>(a: seq<T>, b: seq<T>, c: seq<T>)
    ensures a + b + c == a + (b + c)
  {
  }

  /** Text behind a first quote. */
  lemma Regroup4(a: string, b: string, c: string, d: string)
    ensures a + "\"" + b + c + d == a + "\"" + (b + c + d)
  {
  }

  lemma RegroupQuoted(a: string, key: string, b: string)
    ensures a + Quoted(key) + b == a + "\"" + (key + "\"" + b)
  {
  }

  lemma PiecesGlued(a: string, b: string)
    requires Free(a, '"')
    ensures Pieces(a + b) == [a + Pieces(b)[0]] + Pieces(b)[1..]
  {
    if Free(b, '"') {
      NoQuoteOnePiece(b);
      NoQuoteOnePiece(a + b);
    } else {
      var first, rest := CutAtQuote(b);
      assert a + b == (a + first) + "\"" + rest;
      FirstPiece(a + first, rest);
    }
  }

  lemma BeginsFirstPiece(s: string, b: string, key: string)
    requires Free(key, '"')
    ensures Begins(s + "\"" + b, key + "\"") <==> Pieces(s)[0] == key
  {
    if Free(s, '"') {
      NoQuoteOnePiece(s);
      BeginsIsEqual(s, b, key);
    } else {
      var first, rest := CutAtQuote(s);
      Regroup4(first, rest, "\"", b);
      BeginsIsEqual(first, rest + "\"" + b, key);
    }
  }

  /** In any text at all: the search stops at this occurrence of the quoted key exactly when the text in front of it
      does not mention the key. */
  lemma {:induction false} FoundUnlessMentioned(front: string, key: string, behind: string)
    requires Free(key, '"')
    ensures Find(front + Quoted(key) + behind, Quoted(key), 0) == Some(|front|) <==> !Mentions(front, key)
    decreases |front|
  {
    if Free(front, '"') {
      FoundAtFirstQuote(front, key, behind);
      NoQuoteOnePiece(front);
    } else {
      var first, rest := CutAtQuote(front);
      FoundUnlessMentioned(rest, key, behind);
      FoundBehindQuote(first, rest, key, behind);
      MentionedInRest(first, rest, key, Find(front + Quoted(key) + behind, Quoted(key), 0),
                      Find(rest + Quoted(key) + behind, Quoted(key), 0));
    }
  }

  lemma MentionedInRest(first: string, rest: string, key: string, found: Option<nat>, inRest: Option<nat>)
    requires Free(first, '"') && (inRest == Some(|rest|) <==> !Mentions(rest, key))
    requires found == if Pieces(rest)[0] == key then Some(|first|) else Shift(inRest, |first| + 1)
    ensures found == Some(|first + "\"" + rest|) <==> !Mentions(first + "\"" + rest, key)
  {
    MentionsBehindQuote(first, rest, key);
    NoQuoteOnePiece(first);
  }

  lemma FoundAtFirstQuote(front: string, key: string, behind: string)
    requires Free(front, '"') && Free(key, '"')
    ensures Find(front + Quoted(key) + behind, Quoted(key), 0) == Some(|front|)
  {
    RegroupQuoted(front, key, behind);
    SearchAtQuote(front, key + "\"" + behind, key);
    BeginsIsEqual(key, behind, key);
  }

  lemma FoundBehindQuote(first: string, rest: string, key: string, behind: string)
    requires Free(first, '"') && Free(key, '"')
    ensures Find(first + "\"" + rest + Quoted(key) + behind, Quoted(key), 0) ==
            if Pieces(rest)[0] == key then Some(|first|)
            else Shift(Find(rest + Quoted(key) + behind, Quoted(key), 0), |first| + 1)
  {
    Regroup4(first, rest, Quoted(key), behind);
    SearchAtQuote(first, rest + Quoted(key) + behind, key);
    RegroupQuoted(rest, key, behind);
    BeginsFirstPiece(rest, key + "\"" + behind, key);
  }

  lemma MentionsBehindQuote(a: string, b: string, key: string)
    ensures Mentions(a + "\"" + b, key) <==> Mentions(a, key) || Pieces(b)[0] == key || Mentions(b, key)
  {
    PiecesConcat(a, b);
    var p, q := Pieces(a), Pieces(b);
    assert (p + q)[1..] == p[1..] + q;
    assert q == [q[0]] + q[1..];
  }

  /** A key that the text does not mention is not found in it. */
  lemma {:induction false} UnmentionedIsMissing(s: string, key: string)
    requires Free(key, '"') && !Mentions(s, key)
    ensures Find(s, Quoted(key), 0) == None
    decreases |s|
  {
    if Free(s, '"') {
      SearchWithoutQuote(s, key);
    } else {
      var first, rest := CutAtQuote(s);
      MentionsBehindQuote(first, rest, key);
      UnmentionedIsMissing(rest, key);
      SearchAtQuote(first, rest, key);
      NotBegun(rest, key);
    }
  }

  lemma NotBegun(s: string, key: string)
    requires Free(key, '"') && Pieces(s)[0] != key
    ensures !Begins(s, key + "\"")
  {
    if Free(s, '"') {
      NoQuoteNoKey(s, key);
    } else {
      var first, rest := CutAtQuote(s);
      BeginsIsEqual(first, rest, key);
    }
  }
}
