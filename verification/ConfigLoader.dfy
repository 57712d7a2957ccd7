/** The integer settings taken from a configuration document, and what becomes of those it does not mention. */
module ConfigLoader {
  import opened Basics
  import opened Text
  import opened Config
  import opened RoundTrip

  /** The value a document gives to a key: that of the first entry with it, or the default. */
  function ValueFor(entries: seq<Entry>, key: string, default: int): Lookup<int> {
    if entries == [] then Value(default)
    else if entries[0].key == key then Fits(AsInt(entries[0].setting))
    else ValueFor(entries[1..], key, default)
  }

  /** No comment and no string value of the document reads like the key. */
  ghost predicate Clear(entries: seq<Entry>, trail: string, key: string) {
    && !Mentions(trail, key)
    && forall j :: 0 <= j < |entries| ==> !Mentions(entries[j].lead, key) && entries[j].setting != Str(key)
  }

  /** The first entry with the key, or the end of the document if there is none. */
  lemma {:induction false} FirstEntry(entries: seq<Entry>, key: string, default: int) returns (i: nat)
    ensures i <= |entries| && forall j :: 0 <= j < i ==> entries[j].key != key
    ensures i < |entries| ==> entries[i].key == key && ValueFor(entries, key, default) == Fits(AsInt(entries[i].setting))
    ensures i == |entries| ==> ValueFor(entries, key, default) == Value(default)
    decreases |entries|
  {
    if entries == [] || entries[0].key == key {
      i := 0;
    } else {
      var k := FirstEntry(entries[1..], key, default);
      i := k + 1;
      assert forall j :: 1 <= j < |entries| ==> entries[j] == entries[1..][j - 1];
    }
  }

  /** Whatever else a document holds, looking up a key gives the value printed for it, or the default. */
  lemma LookupIsValueFor(entries: seq<Entry>, trail: string, key: string, default: int)
    requires WellFormed(entries, trail) && IsName(key) && Clear(entries, trail, key)
    ensures GetInt(Print(entries, trail), key, default) == ValueFor(entries, key, default)
  {
    var i := FirstEntry(entries, key, default);
    if i < |entries| {
      LookupRoundTrip(entries, trail, i, default);
    } else {
      MissingKey(entries, trail, key, default);
    }
  }

  lemma {:induction false} ValueForOther(entries: seq<Entry>, i: nat, e: Entry, key: string, default: int)
    requires i < |entries| && entries[i].key == e.key != key
    ensures ValueFor(entries[i := e], key, default) == ValueFor(entries, key, default)
    decreases i
  {
    if i == 0 {
      assert entries[i := e][1..] == entries[1..];
    } else {
      assert entries[i := e][1..] == entries[1..][i - 1 := e];
      ValueForOther(entries[1..], i - 1, e, key, default);
    }
  }

  /** Rewriting one entry - its value, its layout, its comments - leaves every other key's value alone. */
  lemma EditChangesOneKey(entries: seq<Entry>, trail: string, i: nat, e: Entry, key: string, default: int)
    requires i < |entries| && entries[i].key == e.key != key && IsName(key)
    requires WellFormed(entries, trail) && WellFormed(entries[i := e], trail)
    requires Clear(entries, trail, key) && Clear(entries[i := e], trail, key)
    ensures GetInt(Print(entries[i := e], trail), key, default) == GetInt(Print(entries, trail), key, default)
  {
    LookupIsValueFor(entries, trail, key, default);
    LookupIsValueFor(entries[i := e], trail, key, default);
    ValueForOther(entries, i, e, key, default);
  }

  // ---- The integer settings ----

  /** The default each lookup names; most name none, which means 0. */
  const LOOKUP_DEFAULTS: map<string, int> := map[
    "mode" := 0, "repeat" := 0, "oblique_factor" := 0, "raster_threads" := 0, "encode_threads" := 0, "decode_threads" := 0,
    "encode_enabled" := 1, "decode_enabled" := 1, "block_line" := 0, "strip_width" := 0, "align_mode" := 0,
    "dmd_resolution_rows" := 0, "dmd_resolution_cols" := 0, "gzip_level" := 0, "zstd_level" := 0, "lzo2_level" := 0,
    "snappy_level" := 0, "brotli_level" := 0, "brotli_window" := 0, "check_enabled" := 0,
    "cache_blocks_min" := 32, "cache_blocks_max" := 128]

  /** The defaults the settings start with and the field guide documents. */
  const DOCUMENTED_DEFAULTS: map<string, int> := map[
    "mode" := 0, "repeat" := 3, "oblique_factor" := 32, "raster_threads" := 4, "encode_threads" := 0, "decode_threads" := 0,
    "encode_enabled" := 1, "decode_enabled" := 1, "block_line" := 512, "strip_width" := 0, "align_mode" := 512,
    "dmd_resolution_rows" := 512, "dmd_resolution_cols" := 1920, "gzip_level" := 6, "zstd_level" := 3, "lzo2_level" := 1,
    "snappy_level" := 0, "brotli_level" := 6, "brotli_window" := 22, "check_enabled" := 0,
    "cache_blocks_min" := 32, "cache_blocks_max" := 128]

  /** The keys that lose their documented default when a configuration file does not mention them. */
  const FORGOTTEN: set<string> := {
    "repeat", "oblique_factor", "raster_threads", "block_line", "align_mode", "dmd_resolution_rows", "dmd_resolution_cols",
    "gzip_level", "zstd_level", "lzo2_level", "brotli_level", "brotli_window"}

  /** What loading a document puts into the integer setting of this key. */
  function Loaded(json: string, key: string): Lookup<int>
    requires key in LOOKUP_DEFAULTS
  {
    GetInt(json, key, LOOKUP_DEFAULTS[key])
  }

  lemma DefaultsDiffer(key: string)
    requires key in LOOKUP_DEFAULTS
    ensures key in DOCUMENTED_DEFAULTS
    ensures LOOKUP_DEFAULTS[key] == DOCUMENTED_DEFAULTS[key] <==> key !in FORGOTTEN
    ensures key in FORGOTTEN ==> LOOKUP_DEFAULTS[key] == 0
  {
  }

  lemma KeyIsName(key: string)
    requires key in LOOKUP_DEFAULTS
    ensures IsName(key)
  {
    if |key| == 14 {
      KeyOf14IsName(key);
    } else if |key| > 12 {
      LongKeyIsName(key);
    }
  }

  lemma KeyOf14IsName(key: string)
    requires key in LOOKUP_DEFAULTS && |key| == 14
    ensures IsName(key)
  {
  }

  lemma LongKeyIsName(key: string)
    requires key in LOOKUP_DEFAULTS && |key| > 12 && |key| != 14
    ensures IsName(key)
  {
  }

  /** A document that does not mention a key leaves it at its documented default, unless the loader forgets it. */
  lemma UnmentionedSetting(entries: seq<Entry>, trail: string, key: string)
    requires WellFormed(entries, trail) && key in LOOKUP_DEFAULTS && Clear(entries, trail, key)
    requires forall j :: 0 <= j < |entries| ==> entries[j].key != key
    ensures Loaded(Print(entries, trail), key) == Value(DOCUMENTED_DEFAULTS[key]) <==> key !in FORGOTTEN
    ensures key in FORGOTTEN ==> Loaded(Print(entries, trail), key) == Value(0)
  {
    KeyIsName(key);
    MissingKey(entries, trail, key, LOOKUP_DEFAULTS[key]);
    DefaultsDiffer(key);
  }

  /** Loading a document gives every integer setting the value printed for it, or the default of its lookup. */
  lemma LoadedIsPrinted(entries: seq<Entry>, trail: string, key: string)
    requires WellFormed(entries, trail) && key in LOOKUP_DEFAULTS && Clear(entries, trail, key)
    ensures Loaded(Print(entries, trail), key) == ValueFor(entries, key, LOOKUP_DEFAULTS[key])
  {
    KeyIsName(key);
    LookupIsValueFor(entries, trail, key, LOOKUP_DEFAULTS[key]);
  }

  /** An empty document turns the two phases on, sets the window to 32 and 128 blocks, and everything else to 0. */
  lemma EmptyDocument(key: string)
    requires key in LOOKUP_DEFAULTS
    ensures Loaded("{}", key) == Value(
              if key == "encode_enabled" || key == "decode_enabled" then 1
              else if key == "cache_blocks_min" then 32 else if key == "cache_blocks_max" then 128 else 0)
  {
    SearchWithoutQuote("{}", key);
  }
}
