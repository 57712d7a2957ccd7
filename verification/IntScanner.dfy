/** The scanner for lists of integers in the configuration, and the splitter for the --formats option. */
module IntScanner {
  import opened Basics
  import opened Text

  // ---- Maximal digit runs ----

  predicate MaximalRun(s: string, i: nat, j: nat) {
    && i < j <= |s| && (forall k :: i <= k < j ==> IsDigit(s[k]))
    && (i > 0 ==> !IsDigit(s[i - 1]))
    && (j < |s| ==> !IsDigit(s[j]))
  }

  /** Where the digits that start at `from` end. */
  function RunEnd(s: string, from: nat): (end: nat)
    requires from <= |s|
    ensures from <= end <= |s|
    ensures forall k :: from <= k < end ==> IsDigit(s[k])
    ensures end < |s| ==> !IsDigit(s[end])
    decreases |s| - from
  {
    if from < |s| && IsDigit(s[from]) then RunEnd(s, from + 1) else from
  }

  lemma RunEndIs(s: string, from: nat, end: nat)
    requires from <= end <= |s| && forall k :: from <= k < end ==> IsDigit(s[k])
    requires end < |s| ==> !IsDigit(s[end])
    ensures RunEnd(s, from) == end
  {
  }

  /** The digit runs from `from` on, in order. */
  function Spans(s: string, from: nat): seq<(nat, nat)>
    decreases |s| - from
  {
    if from >= |s| then []
    else if !IsDigit(s[from]) then Spans(s, from + 1)
    else [(from, RunEnd(s, from))] + Spans(s, RunEnd(s, from))
  }

  /** Their values. */
  function Values(s: string, from: nat): seq<int>
    decreases |s| - from
  {
    if from >= |s| then []
    else if !IsDigit(s[from]) then Values(s, from + 1)
    else [Number(s[from..RunEnd(s, from)])] + Values(s, RunEnd(s, from))
  }

  ghost predicate SpansInOrder(spans: seq<(nat, nat)>, from: nat) {
    && (forall k :: 0 <= k < |spans| ==> from <= spans[k].0 < spans[k].1)
    && (forall k, l :: 0 <= k < l < |spans| ==> spans[k].1 < spans[l].0)
  }

  lemma RunAt(s: string, from: nat, i: nat, j: nat)
    requires from < |s| && (from == 0 || !IsDigit(s[from - 1])) && IsDigit(s[from])
    ensures MaximalRun(s, from, RunEnd(s, from))
    ensures from <= i && MaximalRun(s, i, j) ==> (i, j) == (from, RunEnd(s, from)) || RunEnd(s, from) < i
  {
    if i == from && MaximalRun(s, i, j) {
      RunEndIs(s, i, j);
    }
  }

  predicate Boundary(s: string, from: nat) {
    from == 0 || from >= |s| || !IsDigit(s[from - 1]) || !IsDigit(s[from])
  }

  /** The runs listed are exactly the maximal ones. */
  lemma {:induction false} SpansAreMaximalRuns(s: string, from: nat, i: nat, j: nat)
    requires Boundary(s, from)
    ensures (i, j) in Spans(s, from) <==> from <= i && MaximalRun(s, i, j)
    decreases |s| - from
  {
    if from < |s| {
      if !IsDigit(s[from]) {
        SpansAreMaximalRuns(s, from + 1, i, j);
      } else {
        SpansAreMaximalRuns(s, RunEnd(s, from), i, j);
        RunAt(s, from, i, j);
      }
    }
  }

  lemma InOrderCons(first: (nat, nat), rest: seq<(nat, nat)>, from: nat)
    requires from <= first.0 < first.1 && SpansInOrder(rest, first.1 + 1)
    ensures SpansInOrder([first] + rest, from)
  {
    var all := [first] + rest;
    forall k | 0 <= k < |all| ensures from <= all[k].0 < all[k].1 {
      assert k > 0 ==> all[k] == rest[k - 1];
    }
    forall k, l | 0 <= k < l < |all| ensures all[k].1 < all[l].0 {
      assert all[l] == rest[l - 1] && (k > 0 ==> all[k] == rest[k - 1]);
    }
  }

  /** They are listed from left to right, with something between them. */
  lemma {:induction false} SpansFromLeftToRight(s: string, from: nat)
    requires Boundary(s, from)
    ensures SpansInOrder(Spans(s, from), from)
    decreases |s| - from
  {
    if from < |s| {
      if !IsDigit(s[from]) {
        SpansFromLeftToRight(s, from + 1);
      } else {
        var end := RunEnd(s, from);
        if end < |s| {
          SpansFromLeftToRight(s, end + 1);
          assert Spans(s, end) == Spans(s, end + 1);
        }
        InOrderCons((from, end), Spans(s, end), from);
      }
    }
  }

  lemma {:induction false} DigitsNumber(digits: string)
    requires digits != "" && AllDigits(digits)
    ensures Number(digits) == PlaceValue(digits) == DigitsValue(digits) >= 0
  {
    assert digits + "" == digits;
    NumberUnsigned(digits, "");
    DigitsInPlace(digits);
  }

  /** The values are the place values of the runs. */
  lemma {:induction false} SpansSpellValues(s: string, from: nat, k: nat)
    ensures |Values(s, from)| == |Spans(s, from)|
    ensures k < |Spans(s, from)| ==>
              var (i, j) := Spans(s, from)[k]; i <= j <= |s| && Values(s, from)[k] == PlaceValue(s[i..j])
    decreases |s| - from
  {
    if from < |s| {
      if !IsDigit(s[from]) {
        SpansSpellValues(s, from + 1, k);
      } else {
        DigitsNumber(s[from..RunEnd(s, from)]);
        SpansSpellValues(s, RunEnd(s, from), if k > 0 then k - 1 else 0);
      }
    }
  }

  lemma RunInSuffix(a: string, b: string, from: nat)
    requires from <= |b|
    ensures RunEnd(a + b, |a| + from) == |a| + RunEnd(b, from)
    ensures (a + b)[|a| + from..|a| + RunEnd(b, from)] == b[from..RunEnd(b, from)]
  {
    var end := RunEnd(b, from);
    assert forall k :: |a| + from <= k < |a| + end ==> (a + b)[k] == b[k - |a|];
    assert end < |b| ==> (a + b)[|a| + end] == b[end];
    RunEndIs(a + b, |a| + from, |a| + end);
    SliceInSuffix(a, b, from, end);
  }

  lemma {:induction false} ValuesInSuffix(a: string, b: string, from: nat)
    ensures Values(a + b, |a| + from) == Values(b, from)
    decreases |b| - from
  {
    if from < |b| {
      SliceInSuffix(a, b, from, from);
      if !IsDigit(b[from]) {
        ValuesInSuffix(a, b, from + 1);
      } else {
        var end := RunEnd(b, from);
        RunInSuffix(a, b, from);
        ValuesInSuffix(a, b, end);
        assert Values(b, from) == [Number(b[from..end])] + Values(b, end);
      }
    }
  }

  // ---- The scanner ----

  predicate AllInts(vs: seq<int>) {
    forall k :: 0 <= k < |vs| ==> vs[k] <= INT_MAX
  }

  /** The values, or nothing if one of them does not fit an int. */
  function Checked(vs: seq<int>): Option<seq<int>> {
    if AllInts(vs) then Some(vs) else None
  }

  function Joined(v: Option<int>, rest: Option<seq<int>>): Option<seq<int>> {
    if v.None? || rest.None? then None else Some([v.value] + rest.value)
  }

  function Prepended(out: seq<int>, rest: Option<seq<int>>): Option<seq<int>> {
    if rest.None? then None else Some(out + rest.value)
  }

  lemma PrependJoined(out: seq<int>, v: Option<int>, rest: Option<seq<int>>)
    ensures Prepended(out, Joined(v, rest)) == if v.None? then None else Prepended(out + [v.value], rest)
  {
    if v.Some? && rest.Some? {
      assert out + ([v.value] + rest.value) == out + [v.value] + rest.value;
    }
  }

  lemma FirstIsInt(v: int, rest: seq<int>)
    ensures AllInts([v] + rest) <==> v <= INT_MAX && AllInts(rest)
  {
    assert ([v] + rest)[0] == v;
    assert forall k :: 0 <= k < |rest| ==> ([v] + rest)[k + 1] == rest[k];
  }

  lemma FirstChecked(v: nat, rest: seq<int>)
    ensures Checked([v] + rest) == Joined(Fitting(v), Checked(rest))
  {
    FirstIsInt(v, rest);
  }

  /** What the scan makes of a text: the values of its digit runs, or nothing if `atoi` is undefined on one. */
  function ReadInts(s: string): Option<seq<int>> {
    Checked(Values(s, 0))
  }

  predicate IsSeparator(c: char) {
    c == ' ' || c == '\t' || c == '\r' || c == '\n' || c == ','
  }

  /** The scan over the text between the brackets. */
  method ScanInts(inner: string) returns (result: Option<seq<int>>)
    ensures result == ReadInts(inner)
  {
    var out: seq<int>, i := [], 0;
    assert [] + Values(inner, 0) == Values(inner, 0);
    while i < |inner|
      invariant i <= |inner|
      invariant ReadInts(inner) == Prepended(out, Checked(Values(inner, i)))
    {
      while i < |inner| && IsSeparator(inner[i])
        invariant i <= |inner|
        invariant ReadInts(inner) == Prepended(out, Checked(Values(inner, i)))
      {
        i := i + 1;
      }
      if i >= |inner| {
        break;
      }
      var j := i;
      while j < |inner| && IsDigit(inner[j])
        invariant i <= j <= |inner| && forall k :: i <= k < j ==> IsDigit(inner[k])
      {
        j := j + 1;
      }
      if j > i {
        RunEndIs(inner, i, j);
        DigitsNumber(inner[i..j]);
        FirstChecked(Number(inner[i..j]), Values(inner, j));
        PrependJoined(out, Atoi(inner[i..j]), Checked(Values(inner, j)));
        var v := Atoi(inner[i..j]);
        if v.None? {
          return None;
        }
        out := out + [v.value];
        i := j;
      } else {
        i := i + 1;
      }
    }
    assert out + [] == out;
    result := Some(out);
  }

  // ---- Printing a list and reading it back ----

  /** A number and the text printed behind it. */
  datatype Item = Item(n: nat, gap: string)

  function ShowItems(items: seq<Item>): string {
    if items == [] then "" else Decimal(items[0].n) + items[0].gap + ShowItems(items[1..])
  }

  function Numbers(items: seq<Item>): seq<int> {
    if items == [] then [] else [items[0].n] + Numbers(items[1..])
  }

  predicate DigitFree(s: string) {
    forall i :: 0 <= i < |s| ==> !IsDigit(s[i])
  }

  lemma {:induction false} SkipDigitFree(s: string, from: nat, to: nat)
    requires from <= to <= |s| && DigitFree(s[from..to])
    ensures Values(s, from) == Values(s, to)
    decreases |s| - from
  {
    if from < to {
      assert s[from] == s[from..to][0];
      assert s[from..to][1..] == s[from + 1..to];
      SkipDigitFree(s, from + 1, to);
    }
  }

  lemma {:induction false} ListedValues(lead: string, items: seq<Item>)
    requires DigitFree(lead)
    requires forall k :: 0 <= k < |items| ==> DigitFree(items[k].gap)
    requires forall k :: 0 <= k < |items| - 1 ==> items[k].gap != ""
    ensures Values(lead + ShowItems(items), 0) == Numbers(items)
    decreases |items|
  {
    if items == [] {
      SkipLead(lead, "");
    } else {
      var rest := items[0].gap + ShowItems(items[1..]);
      ListedValues(items[0].gap, items[1..]);
      NothingRunsOn(items);
      SkipLead(lead, Decimal(items[0].n) + rest);
      FirstNumber(lead, items[0].n, rest);
      Reassociate(lead, Decimal(items[0].n), items[0].gap, ShowItems(items[1..]));
    }
  }

  /** Whatever digit-free text separates them, and whatever digit-free text comes first, the numbers are read back,
      provided all of them fit an int. */
  lemma ListRoundTrip(lead: string, items: seq<Item>)
    requires DigitFree(lead)
    requires forall k :: 0 <= k < |items| ==> DigitFree(items[k].gap)
    requires forall k :: 0 <= k < |items| - 1 ==> items[k].gap != ""
    ensures ReadInts(lead + ShowItems(items)) == Checked(Numbers(items))
  {
    ListedValues(lead, items);
  }

  lemma Reassociate(a: string, b: string, c: string, d: string)
    ensures a + (b + c + d) == a + (b + (c + d)) == a + b + (c + d)
  {
  }

  lemma NothingRunsOn(items: seq<Item>)
    requires items != [] && DigitFree(items[0].gap) && (|items| > 1 ==> items[0].gap != "")
    ensures var rest := items[0].gap + ShowItems(items[1..]); rest != "" ==> !IsDigit(rest[0])
  {
    if items[0].gap == "" {
      assert items[1..] == [];
    }
  }

  lemma SkipLead(lead: string, rest: string)
    requires DigitFree(lead)
    ensures Values(lead + rest, 0) == Values(lead + rest, |lead|)
  {
    assert (lead + rest)[0..|lead|] == lead;
    SkipDigitFree(lead + rest, 0, |lead|);
  }

  lemma FirstRun(lead: string, digits: string, rest: string)
    requires digits != "" && AllDigits(digits) && (rest != "" ==> !IsDigit(rest[0]))
    ensures Values(lead + digits + rest, |lead|) == [Number(digits)] + Values(lead + digits + rest, |lead + digits|)
  {
    var s := lead + digits + rest;
    assert forall k :: |lead| <= k < |lead + digits| ==> s[k] == digits[k - |lead|];
    assert rest != "" ==> s[|lead + digits|] == rest[0];
    RunEndIs(s, |lead|, |lead + digits|);
    assert s[|lead|..|lead + digits|] == digits;
  }

  lemma {:induction false} FirstNumber(lead: string, n: nat, rest: string)
    requires rest != "" ==> !IsDigit(rest[0])
    ensures Values(lead + Decimal(n) + rest, |lead|) == [n as int] + Values(rest, 0)
  {
    var digits := Decimal(n);
    assert digits + "" == digits;
    NumberUnsigned(digits, "");
    DecimalValue(n);
    FirstRun(lead, digits, rest);
    ValuesInSuffix(lead + digits, rest, 0);
  }

  // ---- The --formats option ----

  /** `stoi`: the number at the start of the token, or nothing where it throws. */
  function Stoi(tok: string): Option<int> {
    if tok != "" && tok[0] in C_SPACES then Stoi(tok[1..])
    else
      var digits := if tok != "" && (tok[0] == '-' || tok[0] == '+') then tok[1..] else tok;
      if DigitPrefix(digits) == 0 then None else Fitting(Number(tok))
  }

  function TokenEnd(s: string, from: nat): (end: nat)
    requires from <= |s|
    ensures from <= end <= |s|
    ensures end < |s| ==> s[end] == ','
    ensures forall i :: from <= i < end ==> s[i] != ','
  {
    var r := FirstAt(s, {','}, true, from);
    if r.Some? then r.value else |s|
  }

  /** The numbers of the comma-separated tokens from `from` on; empty tokens are passed over. */
  function FormatsFrom(s: string, from: nat): Option<seq<int>>
    decreases |s| - from
  {
    if from >= |s| then Some([])
    else
      var end := TokenEnd(s, from);
      if end == from then FormatsFrom(s, end + 1)
      else
        Joined(Stoi(s[from..end]), FormatsFrom(s, end + 1))
  }

  lemma TokenRead(s: string, from: nat, end: nat)
    requires from < |s| && from < end == TokenEnd(s, from)
    ensures FormatsFrom(s, from) == Joined(Stoi(s[from..end]), FormatsFrom(s, end + 1))
  {
  }

  /** The loop over the tokens of the option; nothing if a token is no int. */
  method ParseFormats(list: string) returns (formats: Option<seq<int>>)
    ensures formats == FormatsFrom(list, 0)
  {
    var out: seq<int>, from := [], 0;
    assert FormatsFrom(list, 0).Some? ==> [] + FormatsFrom(list, 0).value == FormatsFrom(list, 0).value;
    while from < |list|
      invariant FormatsFrom(list, 0) == Prepended(out, FormatsFrom(list, from))
      decreases |list| - from
    {
      var end := TokenEnd(list, from);
      if end > from {
        var v := Stoi(list[from..end]);
        TokenRead(list, from, end);
        PrependJoined(out, v, FormatsFrom(list, end + 1));
        if v.None? {
          return None;
        }
        out := out + [v.value];
      }
      from := end + 1;
    }
    assert out + [] == out;
    formats := Some(out);
  }

  predicate DigitsAndCommas(s: string) {
    forall i :: 0 <= i < |s| ==> IsDigit(s[i]) || s[i] == ','
  }

  /** A token of digits is one run, and `stoi` and `atoi` agree on it unless it is too large. */
  lemma TokenIsRun(s: string, from: nat, end: nat)
    requires DigitsAndCommas(s) && from <= |s| && from < end == TokenEnd(s, from)
    ensures var v := Number(s[from..end]);
            v >= 0 && Values(s, from) == [v] + Values(s, end) && Stoi(s[from..end]) == Fitting(v)
  {
    var tok := s[from..end];
    assert IsDigit(s[from]);
    RunEndIs(s, from, end);
    StoiDigits(tok);
  }

  lemma StoiDigits(tok: string)
    requires tok != "" && AllDigits(tok)
    ensures Stoi(tok) == Fitting(Number(tok)) && Number(tok) >= 0
  {
    assert tok + "" == tok && IsDigit(tok[0]);
    NumberUnsigned(tok, "");
  }

  lemma ValuesPastComma(s: string, at: nat)
    requires at < |s| ==> s[at] == ','
    ensures Values(s, at) == Values(s, at + 1)
  {
  }

  lemma FirstToken(s: string, from: nat, end: nat)
    requires DigitsAndCommas(s) && from < |s| && from < end == TokenEnd(s, from)
    requires FormatsFrom(s, end + 1) == Checked(Values(s, end + 1))
    ensures FormatsFrom(s, from) == Checked(Values(s, from))
  {
    ValuesPastComma(s, end);
    TokenIsRun(s, from, end);
    FirstChecked(Number(s[from..end]), Values(s, end + 1));
    TokenRead(s, from, end);
  }

  /** On comma-joined naturals, empty tokens allowed, the option is read exactly as the array would be;
      it is refused just when one of the numbers does not fit an int. */
  lemma {:induction false} FormatsAgree(s: string, from: nat)
    requires DigitsAndCommas(s)
    ensures FormatsFrom(s, from) == Checked(Values(s, from))
    decreases |s| - from
  {
    if from < |s| {
      var end := TokenEnd(s, from);
      FormatsAgree(s, end + 1);
      if end > from {
        FirstToken(s, from, end);
      } else {
        ValuesPastComma(s, end);
      }
    }
  }

  // ---- What the option holds, whatever it looks like ----

  /** What `stoi` promises of a number: it has digits, and it is within the range of an int. */
  function StoiOf(digits: string, n: int): Option<int> {
    if digits != "" && -2147483648 <= n <= 2147483647 then Some(n) else None
  }

  lemma {:induction false} StoiUnsigned(digits: string, rest: string)
    requires SignedText("", digits, rest)
    ensures Stoi(digits + rest) == StoiOf(digits, PlaceValue(digits))
  {
    var s := digits + rest;
    DigitsBegin(digits, rest);
    if s != "" {
      UnsignedStarts(digits, rest);
    }
    assert Number(s) == PlaceValue(digits);
  }

  lemma {:induction false} StoiSigned(sign: string, digits: string, rest: string)
    requires SignedText(sign, digits, rest) && sign != ""
    ensures Stoi(sign + digits + rest) == StoiOf(digits, Signed(sign, digits))
  {
    SignedIsPlaceValue(sign, digits, rest);
    DigitsBegin(digits, rest);
    SignStarts(sign, digits, rest);
  }

  lemma {:induction false} StoiSkipsSpace(c: char, s: string)
    requires IsCSpace(c)
    ensures Stoi([c] + s) == Stoi(s)
  {
    assert ([c] + s)[1..] == s;
  }

  /** `stoi` reads any token as `atoi` would, but refuses one without digits and one outside the range of an int. */
  lemma {:induction false} StoiIsPlaceValue(spaces: string, sign: string, digits: string, rest: string)
    requires AllCSpaces(spaces) && SignedText(sign, digits, rest)
    ensures Stoi(spaces + (sign + digits + rest)) == StoiOf(digits, Signed(sign, digits))
    decreases |spaces|
  {
    var s := sign + digits + rest;
    if spaces != "" {
      StoiIsPlaceValue(spaces[1..], sign, digits, rest);
      StoiSkipsSpace(spaces[0], spaces[1..] + s);
      assert spaces + s == [spaces[0]] + (spaces[1..] + s);
    } else {
      assert spaces + s == s;
      if sign == "" {
        StoiUnsigned(digits, rest);
        assert s == digits + rest;
      } else {
        StoiSigned(sign, digits, rest);
      }
    }
  }

  function JoinTokens(tokens: seq<string>): string {
    if tokens == [] then ""
    else if |tokens| == 1 then tokens[0]
    else tokens[0] + "," + JoinTokens(tokens[1..])
  }

  /** Each token that is not empty, read in turn; nothing once one of them is refused. */
  function ReadTokens(tokens: seq<string>): Option<seq<int>> {
    if tokens == [] then Some([])
    else if tokens[0] == "" then ReadTokens(tokens[1..])
    else Joined(Stoi(tokens[0]), ReadTokens(tokens[1..]))
  }

  lemma {:induction false} TokenEndIs(front: string, tok: string, rest: string)
    requires ',' !in tok && (rest != "" ==> rest[0] == ',')
    ensures TokenEnd(front + tok + rest, |front|) == |front + tok|
    ensures (front + tok + rest)[|front|..|front + tok|] == tok
  {
    var s := front + tok + rest;
    assert forall i :: |front| <= i < |front + tok| ==> s[i] == tok[i - |front|];
    assert rest != "" ==> s[|front + tok|] == rest[0];
  }

  /** Whatever the tokens are, the option is cut at its commas. */
  lemma {:induction false} FormatsAreTokens(front: string, tokens: seq<string>)
    requires forall k :: 0 <= k < |tokens| ==> ',' !in tokens[k]
    ensures FormatsFrom(front + JoinTokens(tokens), |front|) == ReadTokens(tokens)
    decreases |tokens|
  {
    if tokens != [] {
      var tok := tokens[0];
      if |tokens| == 1 {
        TokenEndIs(front, tok, "");
        assert front + tok + "" == front + JoinTokens(tokens);
      } else {
        var rest := "," + JoinTokens(tokens[1..]);
        TokenEndIs(front, tok, rest);
        assert front + tok + rest == front + JoinTokens(tokens);
        assert (front + tok + ",") + JoinTokens(tokens[1..]) == front + JoinTokens(tokens);
        FormatsAreTokens(front + tok + ",", tokens[1..]);
      }
    }
  }

  lemma {:induction false} StoiBehindBlank()
    ensures Stoi(" 1") == Some(1)
  {
    StoiIsPlaceValue(" ", "", "1", "");
    assert " " + ("" + "1" + "") == " 1";
  }

  lemma {:induction false} StoiOfZero()
    ensures Stoi("0") == Some(0)
  {
    StoiIsPlaceValue("", "", "0", "");
    assert "" + ("" + "0" + "") == "0";
  }

  lemma {:induction false} ReadTwo(first: string, second: string)
    requires first != "" && second != ""
    ensures ReadTokens([first, second]) == Joined(Stoi(first), Joined(Stoi(second), Some([])))
  {
    var none: seq<string> := [];
    assert [second][1..] == none && ReadTokens(none) == Some([]);
    assert ReadTokens([second]) == Joined(Stoi(second), Some([]));
    assert [first, second][1..] == [second];
  }

  /** `--formats "0, 1"` selects two formats. */
  lemma {:induction false} FormatsBehindBlanks()
    ensures FormatsFrom("0, 1", 0) == Some([0, 1])
  {
    FormatsAreTokens("", ["0", " 1"]);
    assert "" + JoinTokens(["0", " 1"]) == "0, 1" by {
      assert ["0", " 1"][1..] == [" 1"];
    }
    ReadTwo("0", " 1");
    StoiOfZero();
    StoiBehindBlank();
    assert Joined(Some(1), Some([])).value == [1];
    assert Joined(Some(0), Some([1])).value == [0, 1];
  }

  /** A token without digits is refused, and the whole option with it. */
  lemma {:induction false} FormatNameIsRefused()
    ensures FormatsFrom("gzip", 0) == None
  {
    FormatsAreTokens("", ["gzip"]);
    assert "" + JoinTokens(["gzip"]) == "gzip";
    StoiIsPlaceValue("", "", "", "gzip");
    assert "" + ("" + "" + "gzip") == "gzip";
  }
}
