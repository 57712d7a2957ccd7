/** What the configuration lookups return on a printed document. */
module RoundTrip {
  import opened Basics
  import opened Text
  import opened IntScanner
  import opened Config

  // ---- What a document mentions ----

  /** The entry spells the key: as its own key, as its string value, or between quotes in front of it. */
  predicate Spells(e: Entry, key: string) {
    e.key == key || e.setting == Str(key) || Mentions(e.lead, key)
  }

  ghost predicate Clouded(entries: seq<Entry>, trail: string, key: string) {
    Mentions(trail, key) || exists j :: 0 <= j < |entries| && Spells(entries[j], key)
  }

  lemma CloudedCons(entries: seq<Entry>, trail: string, key: string)
    requires entries != []
    ensures Clouded(entries, trail, key) <==> Spells(entries[0], key) || Clouded(entries[1..], trail, key)
  {
    assert forall j :: 1 <= j < |entries| ==> entries[j] == entries[1..][j - 1];
    assert forall j :: 0 <= j < |entries| - 1 ==> entries[1..][j] == entries[j + 1];
  }

  lemma QuotedMentions(lead: string, word: string, tail: string, key: string)
    requires Free(word, '"')
    ensures Mentions(lead + Quoted(word) + tail, key) <==>
            Mentions(lead, key) || word == key || Pieces(tail)[0] == key || Mentions(tail, key)
  {
    RegroupQuoted(lead, word, tail);
    MentionsBehindQuote(lead, word + "\"" + tail, key);
    FirstPiece(word, tail);
    MentionsBehindQuote(word, tail, key);
    NoQuoteOnePiece(word);
  }

  lemma NotName(s: string, i: nat)
    requires i < |s| && !IsNameChar(s[i])
    ensures !IsName(s)
  {
  }

  /** No key stands between the quote that closes an entry's key and the next quote. */
  lemma TailMentions(e: Entry, rest: string, key: string)
    requires WellFormedEntry(e) && IsName(key) && Pieces(rest)[0] != key
    ensures Pieces(Tail(e) + rest)[0] != key
    ensures Mentions(Tail(e) + rest, key) <==> e.setting == Str(key) || Mentions(rest, key)
  {
    var head := e.gap + ":" + e.pad;
    if e.setting.Str? {
      NotName(head, |e.gap|);
      QuotedMentions(head, e.setting.s, rest, key);
      NoQuoteOnePiece(head);
      RegroupQuoted(head, e.setting.s, rest);
      FirstPiece(head, e.setting.s + "\"" + rest);
    } else {
      TailWithoutQuote(e);
      PiecesGlued(Tail(e), rest);
      NotName(Tail(e) + Pieces(rest)[0], |e.gap|);
    }
  }

  lemma TailWithoutQuote(e: Entry)
    requires WellFormedEntry(e) && !e.setting.Str?
    ensures Free(Tail(e), '"')
  {
  }

  lemma SetOffPiece(s: string, key: string)
    requires SetOff(s) && IsName(key)
    ensures Pieces(s)[0] != key
  {
    if Free(s, '"') {
      NoQuoteOnePiece(s);
    } else {
      var first, rest := CutAtQuote(s);
      assert first != "" ==> first[0] == s[0];
    }
  }

  lemma PrintSetOff(entries: seq<Entry>, trail: string)
    requires WellFormed(entries, trail)
    ensures SetOff(Print(entries, trail))
  {
  }

  /** A document mentions a key exactly when one of its entries, or what follows them, spells it. */
  lemma {:induction false} MentionsPrint(entries: seq<Entry>, trail: string, key: string)
    requires WellFormed(entries, trail) && IsName(key)
    ensures Mentions(Print(entries, trail), key) <==> Clouded(entries, trail, key)
    decreases |entries|
  {
    if entries != [] {
      var e, rest := entries[0], Print(entries[1..], trail);
      MentionsPrint(entries[1..], trail, key);
      CloudedCons(entries, trail, key);
      PrintSetOff(entries[1..], trail);
      SetOffPiece(rest, key);
      TailMentions(e, rest, key);
      Regroup(e.lead + Quoted(e.key), Tail(e), rest);
      QuotedMentions(e.lead, e.key, Tail(e) + rest, key);
    }
  }

  // ---- Where a key is found ----

  lemma {:induction false} PrintTrail(entries: seq<Entry>, a: string, b: string)
    ensures Print(entries, a + b) == Print(entries, a) + b
    decreases |entries|
  {
    if entries != [] {
      PrintTrail(entries[1..], a, b);
      Regroup(entries[0].lead + Quoted(entries[0].key) + Tail(entries[0]), Print(entries[1..], a), b);
    }
  }

  lemma {:induction false} PrintSplits(entries: seq<Entry>, trail: string, i: nat)
    requires i <= |entries|
    ensures Print(entries, trail) == Print(entries[..i], Print(entries[i..], trail))
    decreases i
  {
    if i == 0 {
      assert entries[0..] == entries;
    } else {
      PrintSplits(entries[1..], trail, i - 1);
      assert entries[..i][1..] == entries[1..][..i - 1] && entries[1..][i - 1..] == entries[i..];
    }
  }

  /** What is printed behind the quoted key of entry `i`. */
  function Behind(entries: seq<Entry>, trail: string, i: nat): string
    requires i < |entries|
  {
    Tail(entries[i]) + Print(entries[i + 1..], trail)
  }

  lemma PrintAround(entries: seq<Entry>, trail: string, i: nat)
    requires i < |entries|
    ensures Print(entries, trail) == Print(entries[..i], entries[i].lead) + Quoted(entries[i].key) + Behind(entries, trail, i)
  {
    var e := entries[i];
    PrintSplits(entries, trail, i);
    assert entries[i..][1..] == entries[i + 1..] && entries[i..][0] == e;
    Regroup(e.lead + Quoted(e.key), Tail(e), Print(entries[i + 1..], trail));
    PrintTrail(entries[..i], e.lead + Quoted(e.key), Behind(entries, trail, i));
    PrintTrail(entries[..i], e.lead, Quoted(e.key));
  }

  lemma {:induction false} PartsWellFormed(entries: seq<Entry>, trail: string, i: nat)
    requires WellFormed(entries, trail) && i < |entries|
    ensures WellFormed(entries[..i], entries[i].lead) && WellFormedEntry(entries[i]) && WellFormed(entries[i + 1..], trail)
    decreases i
  {
    if i > 0 {
      PartsWellFormed(entries[1..], trail, i - 1);
      assert entries[1..][..i - 1] == entries[..i][1..] && entries[1..][i..] == entries[i + 1..];
    }
  }

  /** In text: the quoted key is found at its own entry, not inside another key, a value or a comment, exactly when
      nothing printed in front of it spells the key. */
  lemma KeyFoundAtItsEntry(entries: seq<Entry>, trail: string, i: nat)
    requires WellFormed(entries, trail) && i < |entries|
    ensures Find(Print(entries, trail), Quoted(entries[i].key), 0) == Some(|Print(entries[..i], entries[i].lead)|) <==>
            !Clouded(entries[..i], entries[i].lead, entries[i].key)
  {
    PartsWellFormed(entries, trail, i);
    PrintAround(entries, trail, i);
    FoundUnlessMentioned(Print(entries[..i], entries[i].lead), entries[i].key, Behind(entries, trail, i));
    MentionsPrint(entries[..i], entries[i].lead, entries[i].key);
  }

  // ---- Reading the value ----

  lemma ShowBegins(v: Setting)
    ensures Show(v) != "" && !IsBlankChar(Show(v)[0]) && Show(v)[0] != '/' && (Show(v)[0] == '"' <==> v.Str?)
  {
  }

  /** Something other than blanks, and no comment. */
  predicate StartsValue(s: string) {
    s != "" && !IsBlankChar(s[0]) && !("//" <= s)
  }

  /** Behind the key the value starts right after the blanks that follow the colon. */
  lemma ValueStartOf(gap: string, pad: string, behind: string)
    requires Free(gap, ':') && IsBlank(pad) && StartsValue(behind)
    ensures ValueStart(gap + ":" + pad + behind, 0) == StartAt(|gap| + 1 + |pad|)
  {
    var s := gap + ":" + pad + behind;
    assert forall i :: 0 <= i < |gap| ==> s[i] == gap[i];
    assert s[|gap|] == ':';
    FirstAtIs(s, {':'}, true, 0, |gap|);
    assert forall i :: |gap| + 1 <= i < |gap| + 1 + |pad| ==> s[i] == pad[i - |gap| - 1];
    assert s[|gap| + 1 + |pad|] == behind[0];
    assert |behind| > 1 ==> s[|gap| + 1 + |pad| + 1] == behind[1];
    FirstAtIs(s, SPACES, false, |gap| + 1, |gap| + 1 + |pad|);
  }

  /** What a lookup makes of a printed integer. */
  function Fits(n: int): Lookup<int> {
    AsLookup(Fitting(n))
  }

  lemma IntAtShown(front: string, n: int, rest: string)
    requires StartsNoNumber(rest)
    ensures IntAt(front + ShowInt(n) + rest, |front|) == Fits(n)
  {
    var s := front + ShowInt(n) + rest;
    var end := FirstAt(s, INT_END, true, |front|);
    var stop := if end.Some? then end.value else |s|;
    var cut := |front| + |ShowInt(n)|;
    assert forall k :: |front| <= k < cut ==> s[k] == ShowInt(n)[k - |front|];
    assert cut <= stop;
    var kept := rest[..stop - cut];
    assert s[|front|..stop] == ShowInt(n) + kept;
    assert kept != "" ==> kept[0] == rest[0];
    AtoiShowInt(n, kept);
  }

  lemma IntAtOther(s: string, p: nat)
    requires p < |s| && (s[p] == '"' || s[p] == '[')
    ensures IntAt(s, p) == Value(0)
  {
    var end := FirstAt(s, INT_END, true, p);
    var t := s[p..if end.Some? then end.value else |s|];
    assert t[0] == s[p];
    assert t[..0] == "";
  }

  lemma StrAtShown(front: string, text: string, rest: string)
    requires Free(text, '"')
    ensures StrAt(front + Quoted(text) + rest, |front|) == text
  {
    var s := front + Quoted(text) + rest;
    assert s == (front + "\"") + text + "\"" + rest;
    assert forall i :: |front| + 1 <= i < |front| + 1 + |text| ==> s[i] == text[i - |front| - 1];
    FirstAtIs(s, {'"'}, true, |front| + 1, |front| + 1 + |text|);
    assert s[|front| + 1..|front| + 1 + |text|] == text;
  }

  /** What `json_get_int` makes of a value: the decimals are dropped; a string or a list reads as 0. */
  function AsInt(v: Setting): int {
    if v.Int? then v.n else if v.Dec? then v.whole else 0
  }

  /** What `json_get_str` makes of a value: a number or a list reads as the empty string. */
  function AsStr(v: Setting): string {
    if v.Str? then v.s else ""
  }

  lemma IntAtValue(front: string, v: Setting, rest: string)
    requires WellFormedSetting(v) && StartsNoNumber(rest)
    ensures IntAt(front + Show(v) + rest, |front|) == Fits(AsInt(v))
  {
    var s := front + Show(v) + rest;
    match v {
      case Int(n) => IntAtShown(front, n, rest);
      case Dec(whole, digits) =>
        RegroupDec(front, ShowInt(whole), digits, rest);
        IntAtShown(front, whole, "." + digits + rest);
      case _ =>
        assert s[|front|] == Show(v)[0];
        IntAtOther(s, |front|);
    }
  }

  lemma RegroupDec(front: string, whole: string, digits: string, rest: string)
    ensures front + (whole + "." + digits) + rest == front + whole + ("." + digits + rest)
  {
  }

  lemma StrAtValue(front: string, v: Setting, rest: string)
    requires WellFormedSetting(v)
    ensures StrAt(front + Show(v) + rest, |front|) == AsStr(v)
  {
    ShowBegins(v);
    assert (front + Show(v) + rest)[|front|] == Show(v)[0];
    if v.Str? {
      StrAtShown(front, v.s, rest);
    }
  }

  lemma ReadBehindColon(gap: string, pad: string, v: Setting, rest: string, default: int)
    requires Free(gap, ':') && IsBlank(pad) && WellFormedSetting(v) && StartsNoNumber(rest)
    ensures IntFrom(gap + ":" + pad + Show(v) + rest, 0, default) == Fits(AsInt(v))
    ensures StrFrom(gap + ":" + pad + Show(v) + rest, 0) == Value(AsStr(v))
  {
    ShowBegins(v);
    assert (Show(v) + rest)[0] == Show(v)[0];
    ValueStartOf(gap, pad, Show(v) + rest);
    Regroup(gap + ":" + pad, Show(v), rest);
    IntAtValue(gap + ":" + pad, v, rest);
    StrAtValue(gap + ":" + pad, v, rest);
  }

  lemma InnerOf(gap: string, inner: string, rest: string)
    requires Free(gap, '[') && Free(inner, ']')
    ensures InnerFrom(gap + "[" + inner + "]" + rest, 0) == Some(inner)
  {
    var s, open, close := gap + "[" + inner + "]" + rest, |gap|, |gap| + 1 + |inner|;
    assert forall i :: 0 <= i < open ==> s[i] == gap[i];
    FirstAtIs(s, {'['}, true, 0, open);
    assert forall i :: open + 1 <= i < close ==> s[i] == inner[i - open - 1];
    assert s[close] == ']';
    FirstAtIs(s, {']'}, true, open, close);
    assert s[open + 1..close] == inner;
  }

  lemma InnerBehindKey(e: Entry, rest: string)
    requires WellFormedEntry(e) && e.setting.Arr?
    ensures InnerFrom(Tail(e) + rest, 0) == Some(e.setting.inner)
  {
    var front, inner := e.gap + ":" + e.pad, e.setting.inner;
    InnerOf(front, inner, rest);
    assert Tail(e) + rest == front + "[" + inner + "]" + rest;
  }

  lemma RestStartsNoNumber(entries: seq<Entry>, trail: string)
    requires WellFormed(entries, trail)
    ensures StartsNoNumber(Print(entries, trail))
  {
    PrintSetOff(entries, trail);
  }

  /** Once the quoted key has been found, the lookups read from behind it. */
  lemma IntReadsFrom(json: string, key: string, from: nat, default: int)
    requires |Quoted(key)| <= from && Find(json, Quoted(key), 0) == Some(from - |Quoted(key)|)
    ensures GetInt(json, key, default) == IntFrom(json, from, default)
  {
  }

  lemma StrReadsFrom(json: string, key: string, from: nat)
    requires |Quoted(key)| <= from && Find(json, Quoted(key), 0) == Some(from - |Quoted(key)|)
    ensures GetStr(json, key) == StrFrom(json, from)
  {
  }

  lemma ArrayReadsFrom(json: string, key: string, from: nat)
    requires |Quoted(key)| <= from && Find(json, Quoted(key), 0) == Some(from - |Quoted(key)|)
    ensures InnerFrom(json, from).Some? ==> IntArray(json, key) == ReadInts(InnerFrom(json, from).value)
  {
  }

  lemma ReadBehind(front: string, key: string, behind: string, default: int)
    requires Free(key, '"') && !Mentions(front, key)
    ensures GetInt(front + Quoted(key) + behind, key, default) == IntFrom(behind, 0, default)
    ensures GetStr(front + Quoted(key) + behind, key) == StrFrom(behind, 0)
    ensures InnerFrom(behind, 0).Some? ==> IntArray(front + Quoted(key) + behind, key) == ReadInts(InnerFrom(behind, 0).value)
  {
    FoundUnlessMentioned(front, key, behind);
    var json, from := front + Quoted(key) + behind, |front + Quoted(key)|;
    IntReadsFrom(json, key, from, default);
    StrReadsFrom(json, key, from);
    ArrayReadsFrom(json, key, from);
    IntInSuffix(front + Quoted(key), behind, default);
    StrInSuffix(front + Quoted(key), behind);
    InnerInSuffix(front + Quoted(key), behind);
  }

  lemma ReadBehindKey(entries: seq<Entry>, trail: string, i: nat, default: int)
    requires WellFormed(entries, trail) && i < |entries|
    ensures IntFrom(Behind(entries, trail, i), 0, default) == Fits(AsInt(entries[i].setting))
    ensures StrFrom(Behind(entries, trail, i), 0) == Value(AsStr(entries[i].setting))
    ensures entries[i].setting.Arr? ==> InnerFrom(Behind(entries, trail, i), 0) == Some(entries[i].setting.inner)
  {
    var e, rest := entries[i], Print(entries[i + 1..], trail);
    PartsWellFormed(entries, trail, i);
    RestStartsNoNumber(entries[i + 1..], trail);
    ReadBehindColon(e.gap, e.pad, e.setting, rest, default);
    if e.setting.Arr? {
      InnerBehindKey(e, rest);
    }
  }

  /** Every key reads back exactly what was printed for it, whatever else the document holds. */
  lemma LookupRoundTrip(entries: seq<Entry>, trail: string, i: nat, default: int)
    requires WellFormed(entries, trail) && i < |entries| && !Clouded(entries[..i], entries[i].lead, entries[i].key)
    ensures var json, key, v := Print(entries, trail), entries[i].key, entries[i].setting;
            && GetInt(json, key, default) == Fits(AsInt(v))
            && GetStr(json, key) == Value(AsStr(v))
            && (v.Arr? ==> IntArray(json, key) == ReadInts(v.inner))
  {
    var key, front, behind := entries[i].key, Print(entries[..i], entries[i].lead), Behind(entries, trail, i);
    PartsWellFormed(entries, trail, i);
    PrintAround(entries, trail, i);
    MentionsPrint(entries[..i], entries[i].lead, key);
    ReadBehind(front, key, behind, default);
    ReadBehindKey(entries, trail, i, default);
  }

  /** A key that nothing spells reads as the default. */
  lemma MissingKey(entries: seq<Entry>, trail: string, key: string, default: int)
    requires WellFormed(entries, trail) && IsName(key) && !Clouded(entries, trail, key)
    ensures GetInt(Print(entries, trail), key, default) == Value(default)
    ensures GetStr(Print(entries, trail), key) == Value("")
    ensures IntArray(Print(entries, trail), key) == Some([])
  {
    MentionsPrint(entries, trail, key);
    UnmentionedIsMissing(Print(entries, trail), key);
  }

  /** A list printed with any separators reads back, embedded in any document. */
  lemma ListInDocumentRoundTrip(entries: seq<Entry>, trail: string, i: nat, lead: string, items: seq<Item>)
    requires WellFormed(entries, trail) && i < |entries| && !Clouded(entries[..i], entries[i].lead, entries[i].key)
    requires entries[i].setting == Arr(lead + ShowItems(items)) && DigitFree(lead)
    requires forall k :: 0 <= k < |items| ==> DigitFree(items[k].gap)
    requires forall k :: 0 <= k < |items| - 1 ==> items[k].gap != ""
    ensures IntArray(Print(entries, trail), entries[i].key) == Checked(Numbers(items))
  {
    LookupRoundTrip(entries, trail, i, 0);
    ListRoundTrip(lead, items);
  }

  // ---- Where the round trip fails ----

  lemma ColonFree(before: string, e: Entry)
    requires WellFormedEntry(e) && Free(before, ':')
    ensures Free(before + Quoted(e.key) + e.gap, ':')
  {
    assert forall i :: 0 <= i < |e.key| ==> IsNameChar(e.key[i]);
  }

  /** Up to the colon of an entry the lookups pass over anything, its key included. */
  lemma ReadAtColon(before: string, entries: seq<Entry>, trail: string, i: nat, default: int)
    requires WellFormed(entries, trail) && i < |entries| && Free(before, ':')
    ensures IntFrom(before + Quoted(entries[i].key) + Behind(entries, trail, i), 0, default) == Fits(AsInt(entries[i].setting))
    ensures StrFrom(before + Quoted(entries[i].key) + Behind(entries, trail, i), 0) == Value(AsStr(entries[i].setting))
  {
    var e, rest := entries[i], Print(entries[i + 1..], trail);
    PartsWellFormed(entries, trail, i);
    RestStartsNoNumber(entries[i + 1..], trail);
    ColonFree(before, e);
    ReadBehindColon(before + Quoted(e.key) + e.gap, e.pad, e.setting, rest, default);
    RegroupTail(before + Quoted(e.key), e.gap, e.pad, Show(e.setting), rest);
  }

  lemma RegroupTail(head: string, gap: string, pad: string, shown: string, rest: string)
    ensures head + (gap + ":" + pad + shown + rest) == (head + gap) + ":" + pad + shown + rest
  {
  }

  /** A comment that quotes a key in front of entry `i` takes the lookups of that key to the next colon: if that is the
      colon of the entry, they answer with its value, whatever its key is - the right one only if the keys agree. */
  lemma MentionReadsNext(entries: seq<Entry>, trail: string, key: string, i: nat, before: string,
                                            rest: string, default: int)
    requires WellFormed(entries, trail) && IsName(key) && i < |entries|
    requires entries[i].lead == before + Quoted(key) + rest && Free(rest, ':') && !Clouded(entries[..i], before, key)
    ensures GetInt(Print(entries, trail), key, default) == Fits(AsInt(entries[i].setting))
    ensures GetStr(Print(entries, trail), key) == Value(AsStr(entries[i].setting))
  {
    var front, behind := Print(entries[..i], before), rest + Quoted(entries[i].key) + Behind(entries, trail, i);
    PartsWellFormed(entries, trail, i);
    ShorterTrail(entries[..i], entries[i].lead, before);
    PrintAround(entries, trail, i);
    PrintTrail(entries[..i], before + Quoted(key), rest);
    PrintTrail(entries[..i], before, Quoted(key));
    RegroupBehind(front + Quoted(key), rest, Quoted(entries[i].key), Behind(entries, trail, i));
    MentionsPrint(entries[..i], before, key);
    ReadBehind(front, key, behind, default);
    ReadAtColon(rest, entries, trail, i, default);
  }

  lemma RegroupBehind(a: string, b: string, c: string, d: string)
    ensures a + b + c + d == a + (b + c + d)
  {
  }

  lemma {:induction false} ShorterTrail(entries: seq<Entry>, trail: string, before: string)
    requires WellFormed(entries, trail) && before <= trail
    ensures WellFormed(entries, before)
    decreases |entries|
  {
    if entries != [] {
      ShorterTrail(entries[1..], trail, before);
    }
  }

  /** A string value that reads like a key does the same: the lookups answer with the next entry's value. */
  lemma ValueReadsNext(entries: seq<Entry>, trail: string, key: string, j: nat, default: int)
    requires WellFormed(entries, trail) && IsName(key) && j + 1 < |entries|
    requires entries[j].setting == Str(key) && entries[j].key != key && !Clouded(entries[..j], entries[j].lead, key)
    requires Free(entries[j + 1].lead, ':')
    ensures GetInt(Print(entries, trail), key, default) == Fits(AsInt(entries[j + 1].setting))
    ensures GetStr(Print(entries, trail), key) == Value(AsStr(entries[j + 1].setting))
  {
    var next := entries[j + 1];
    var behind := next.lead + Quoted(next.key) + Behind(entries, trail, j + 1);
    PartsWellFormed(entries, trail, j);
    ValueFrontClear(entries, key, j);
    ValueSplits(entries, trail, j);
    ReadBehind(ValueFront(entries, j), key, behind, default);
    ReadAtColon(next.lead, entries, trail, j + 1, default);
  }

  /** What is printed in front of the value of entry `j`. */
  function ValueFront(entries: seq<Entry>, j: nat): string
    requires j < |entries|
  {
    Print(entries[..j], entries[j].lead) + Quoted(entries[j].key) + (entries[j].gap + ":" + entries[j].pad)
  }

  lemma ValueFrontClear(entries: seq<Entry>, key: string, j: nat)
    requires IsName(key) && j < |entries| && entries[j].key != key && !Clouded(entries[..j], entries[j].lead, key)
    requires WellFormed(entries[..j], entries[j].lead) && WellFormedEntry(entries[j])
    ensures !Mentions(ValueFront(entries, j), key)
  {
    var e := entries[j];
    var head := e.gap + ":" + e.pad;
    MentionsPrint(entries[..j], e.lead, key);
    NoQuoteOnePiece(head);
    NotName(head, |e.gap|);
    QuotedMentions(Print(entries[..j], e.lead), e.key, head, key);
  }

  lemma ValueSplits(entries: seq<Entry>, trail: string, j: nat)
    requires j + 1 < |entries| && entries[j].setting.Str?
    ensures var next := entries[j + 1];
            Print(entries, trail) ==
            ValueFront(entries, j) + Quoted(entries[j].setting.s) +
            (next.lead + Quoted(next.key) + Behind(entries, trail, j + 1))
  {
    var e, next := entries[j], entries[j + 1];
    PrintAround(entries, trail, j);
    BehindNext(entries, trail, j);
    RegroupBehind(Print(entries[..j], e.lead) + Quoted(e.key), e.gap + ":" + e.pad, Quoted(e.setting.s),
                  next.lead + Quoted(next.key) + Behind(entries, trail, j + 1));
  }

  lemma BehindNext(entries: seq<Entry>, trail: string, j: nat)
    requires j + 1 < |entries| && entries[j].setting.Str?
    ensures var e, next := entries[j], entries[j + 1];
            Behind(entries, trail, j) ==
            (e.gap + ":" + e.pad) + Quoted(e.setting.s) + (next.lead + Quoted(next.key) + Behind(entries, trail, j + 1))
  {
    var next := entries[j + 1];
    assert entries[j + 1..][1..] == entries[j + 2..];
    Regroup(next.lead + Quoted(next.key), Tail(next), Print(entries[j + 2..], trail));
  }

  /** A document in which the string value of `verbose` reads like the key `repeat`. */
  function CloudedDocument(): seq<Entry> {
    [Entry("{", "verbose", "", " ", Str("repeat")), Entry(",", "mode", "", " ", Int(1)), Entry(",", "repeat", "", " ", Int(5))]
  }

  /** There `repeat` is printed as 5 and read as 1, the value of `mode`. */
  lemma CloudedKeyMisreads()
    ensures WellFormed(CloudedDocument(), "}")
    ensures CloudedDocument()[2].key == "repeat" && CloudedDocument()[2].setting == Int(5)
    ensures GetInt(Print(CloudedDocument(), "}"), "repeat", 0) == Value(1)
  {
    var entries := CloudedDocument();
    assert entries[1..] == [entries[1], entries[2]] && entries[1..][1..] == [entries[2]] && entries[1..][1..][1..] == [];
    assert WellFormed(entries[1..][1..], "}") && WellFormed(entries[1..], "}");
    NoQuoteOnePiece("{");
    assert !Clouded(entries[..0], "{", "repeat");
    ValueReadsNext(entries, "}", "repeat", 0, 0);
  }

  // ---- Comments between the colon and the value ----

  /** Line comments, each with the blanks behind the newline that ends it. */
  function Comments(lines: seq<(string, string)>): string {
    if lines == [] then "" else "//" + lines[0].0 + "\n" + lines[0].1 + Comments(lines[1..])
  }

  predicate IsCommentLine(line: (string, string)) {
    Free(line.0, '\n') && IsBlank(line.1)
  }

  /** Behind a comment the value is taken to start at the newline that ends it. */
  lemma CommentStart(gap: string, pad: string, comment: string, rest: string)
    requires Free(gap, ':') && IsBlank(pad) && Free(comment, '\n')
    ensures ValueStart(gap + ":" + pad + "//" + comment + "\n" + rest, 0) == StartAt(|gap| + 1 + |pad| + 2 + |comment|)
  {
    var s := gap + ":" + pad + "//" + comment + "\n" + rest;
    var p := |gap| + 1 + |pad|;
    assert forall i :: 0 <= i < |gap| ==> s[i] == gap[i];
    FirstAtIs(s, {':'}, true, 0, |gap|);
    assert forall i :: |gap| + 1 <= i < p ==> s[i] == pad[i - |gap| - 1];
    assert s[p] == '/' && s[p + 1] == '/';
    FirstAtIs(s, SPACES, false, |gap| + 1, p);
    var newline := p + 2 + |comment|;
    assert s[newline] == '\n';
    assert forall i :: p + 2 <= i < newline ==> s[i] == comment[i - p - 2];
    FirstAtIs(s, {'\n'}, true, p, newline);
  }

  lemma EmptyReadsZero()
    ensures Atoi("") == Some(0)
  {
    assert ""[..0] == "";
  }

  /** So the value behind a comment reads as 0, or as an empty string, whatever it is. */
  lemma CommentBeforeValueReadsZero(gap: string, pad: string, comment: string, rest: string, default: int)
    requires Free(gap, ':') && IsBlank(pad) && Free(comment, '\n')
    ensures IntFrom(gap + ":" + pad + "//" + comment + "\n" + rest, 0, default) == Value(0)
    ensures StrFrom(gap + ":" + pad + "//" + comment + "\n" + rest, 0) == Value("")
  {
    var s := gap + ":" + pad + "//" + comment + "\n" + rest;
    CommentStart(gap, pad, comment, rest);
    var newline := |gap| + 1 + |pad| + 2 + |comment|;
    assert s[newline] == '\n';
    FirstAtIs(s, INT_END, true, newline, newline);
    assert s[newline..newline] == "";
    EmptyReadsZero();
  }

  /** The text of a setting with comments in front of its value. */
  function Commented(gap: string, pad: string, lines: seq<(string, string)>, v: Setting, rest: string): string {
    gap + ":" + pad + Comments(lines) + Show(v) + rest
  }

  lemma CommentedSplits(gap: string, pad: string, lines: seq<(string, string)>, v: Setting, rest: string)
    requires lines != []
    ensures Commented(gap, pad, lines, v, rest) ==
            gap + ":" + pad + "//" + lines[0].0 + "\n" + (lines[0].1 + Comments(lines[1..]) + Show(v) + rest)
  {
  }

  lemma ReadCommented(gap: string, pad: string, lines: seq<(string, string)>, v: Setting, rest: string, default: int)
    requires Free(gap, ':') && IsBlank(pad) && WellFormedSetting(v) && StartsNoNumber(rest)
    requires forall k :: 0 <= k < |lines| ==> IsCommentLine(lines[k])
    ensures IntFrom(Commented(gap, pad, lines, v, rest), 0, default) == if lines == [] then Fits(AsInt(v)) else Value(0)
    ensures StrFrom(Commented(gap, pad, lines, v, rest), 0) == Value(if lines == [] then AsStr(v) else "")
  {
    if lines == [] {
      assert gap + ":" + pad + Comments([]) == gap + ":" + pad;
      ReadBehindColon(gap, pad, v, rest, default);
    } else {
      CommentedSplits(gap, pad, lines, v, rest);
      CommentBeforeValueReadsZero(gap, pad, lines[0].0, lines[0].1 + Comments(lines[1..]) + Show(v) + rest, default);
    }
  }

  /** What the lookups answer in a document that puts any line comments between the colon of a key and its value. */
  lemma CommentedLookups(front: string, key: string, gap: string, pad: string,
                                            lines: seq<(string, string)>, v: Setting, rest: string, default: int)
    requires IsName(key) && !Mentions(front, key)
    requires Free(gap, ':') && IsBlank(pad) && WellFormedSetting(v) && StartsNoNumber(rest)
    requires forall k :: 0 <= k < |lines| ==> IsCommentLine(lines[k])
    ensures var json := front + Quoted(key) + Commented(gap, pad, lines, v, rest);
            && GetInt(json, key, default) == (if lines == [] then Fits(AsInt(v)) else Value(0))
            && GetStr(json, key) == Value(if lines == [] then AsStr(v) else "")
  {
    ReadBehind(front, key, Commented(gap, pad, lines, v, rest), default);
    ReadCommented(gap, pad, lines, v, rest, default);
  }

  /** So the value reads back if and only if there is no comment, or the value is what the lookup answers anyway: 0, or
      an empty string. */
  lemma SurvivesUnlessCommented(front: string, key: string, gap: string, pad: string,
                                                   lines: seq<(string, string)>, v: Setting, rest: string, default: int)
    requires IsName(key) && !Mentions(front, key)
    requires Free(gap, ':') && IsBlank(pad) && WellFormedSetting(v) && StartsNoNumber(rest)
    requires forall k :: 0 <= k < |lines| ==> IsCommentLine(lines[k])
    ensures var json := front + Quoted(key) + Commented(gap, pad, lines, v, rest);
            && (GetInt(json, key, default) == Fits(AsInt(v)) <==> lines == [] || AsInt(v) == 0)
            && (GetStr(json, key) == Value(AsStr(v)) <==> lines == [] || AsStr(v) == "")
  {
    CommentedLookups(front, key, gap, pad, lines, v, rest, default);
  }

  /** A document whose only setting has a comment in front of its value, which is indented on the next line. */
  function CommentedDocument(): string {
    "{" + Quoted("repeat") + Commented("", " ", [(" three is enough", "    ")], Int(3), "}")
  }

  /** There `repeat` is printed as 3 and read as 0. */
  lemma CommentedValueIsLost(default: int)
    ensures GetInt(CommentedDocument(), "repeat", default) == Value(0)
  {
    NoQuoteOnePiece("{");
    CommentedLookups("{", "repeat", "", " ", [(" three is enough", "    ")], Int(3), "}", default);
  }
}
