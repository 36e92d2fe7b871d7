/**
 * The desktop front end (main_gui.py): the hover-colour helper, the
 * error-message formatting and status-bar truncation, the model-selector
 * label, and the window state the roster, the checkboxes and the selection
 * live in. Widgets are reduced to the strings they would display.
 */
module Gui {

  import opened Wrappers
  import opened Text
  import opened Models
  import opened Roster

  // ---------------------------------------------------------------------
  // lighten_color
  // ---------------------------------------------------------------------

  type Byte = x: nat | x < 256

  datatype Rgb = Rgb(red: Byte, green: Byte, blue: Byte)

  /** `s.lstrip(c)`: `s` without its leading run of `c`. */
  function StripLeading(s: string, c: char): (r: string)
    ensures |r| <= |s| && r == s[|s| - |r|..]
    ensures forall i :: 0 <= i < |s| - |r| ==> s[i] == c
    ensures r == [] || r[0] != c
  {
    if s != [] && s[0] == c then StripLeading(s[1..], c) else s
  }

  /** The three channels `int(hex_color[i:i+2], 16)` reads, or None where one of them raises. */
  function ParseRgb(hexColor: string): Option<Rgb> {
    var h := StripLeading(hexColor, '#');
    var r, g, b := ParseHexField(Slice(h, 0, 2)), ParseHexField(Slice(h, 2, 4)), ParseHexField(Slice(h, 4, 6));
    if r.Some? && g.Some? && b.Some? then Some(Rgb(r.value, g.value, b.value)) else None
  }

  /** `f"#{r:02x}{g:02x}{b:02x}"`. */
  function EncodeRgb(c: Rgb): string {
    "#" + Hex2(c.red) + Hex2(c.green) + Hex2(c.blue)
  }

  /** A colour as `lighten_color` writes it: '#' and six lower-case hex digits. */
  predicate WellFormedColor(s: string) {
    |s| == 7 && s[0] == '#' && forall i :: 1 <= i < 7 ==> ('0' <= s[i] <= '9' || 'a' <= s[i] <= 'f')
  }

  /** Decoding an encoded colour gives the colour back, and the encoding is well formed. */
  lemma EncodeRgbRoundTrip(c: Rgb)
    ensures WellFormedColor(EncodeRgb(c))
    ensures ParseRgb(EncodeRgb(c)) == Some(c)
  {
    var s := EncodeRgb(c);
    var h := s[1..];
    assert h == Hex2(c.red) + Hex2(c.green) + Hex2(c.blue);
    assert StripLeading(s, '#') == h;
    assert Slice(h, 0, 2) == Hex2(c.red);
    assert Slice(h, 2, 4) == Hex2(c.green);
    assert Slice(h, 4, 6) == Hex2(c.blue);
    Hex2RoundTrip(c.red);
    Hex2RoundTrip(c.green);
    Hex2RoundTrip(c.blue);
  }

  /**
   * `min(255, int(c * 1.2))`, with the float product read as the integer
   * `(c * 12) / 10`: never darker, never past 255, and exactly the floor
   * of 1.2 c unless clamped.
   */
  function LightenChannel(c: Byte): (r: Byte)
    ensures c <= r
    ensures c * 12 < 2560 ==> r * 10 <= c * 12 < r * 10 + 10
    ensures c * 12 >= 2560 ==> r == 255
    ensures r == 255 <==> c * 12 >= 2550
  {
    if c * 12 / 10 > 255 then 255 else c * 12 / 10
  }

  function Lighten(c: Rgb): Rgb {
    Rgb(LightenChannel(c.red), LightenChannel(c.green), LightenChannel(c.blue))
  }

  /** A channel keeps its value exactly when it is below 5 or already 255. */
  lemma LightenChannelFixed(c: Byte)
    ensures LightenChannel(c) == c <==> c < 5 || c == 255
  {
    if 5 <= c < 255 {
      assert c * 12 / 10 >= c + 1;
    }
  }

  /**
   * `lighten_color(hex_color)`: None where the source raises ValueError;
   * otherwise a well-formed colour whose channels are the lightened input
   * channels, in R, G, B order.
   */
  function LightenColor(hexColor: string): (r: Option<string>)
    ensures r.Some? <==> ParseRgb(hexColor).Some?
    ensures r.Some? ==> WellFormedColor(r.value)
    ensures r.Some? ==> ParseRgb(r.value) == Some(Lighten(ParseRgb(hexColor).value))
    ensures r.Some? ==>
              var before, after := ParseRgb(hexColor).value, ParseRgb(r.value).value;
              before.red <= after.red && before.green <= after.green && before.blue <= after.blue
  {
    match ParseRgb(hexColor)
    case None => None
    case Some(c) =>
      EncodeRgbRoundTrip(Lighten(c));
      Some(EncodeRgb(Lighten(c)))
  }

  // ---------------------------------------------------------------------
  // _format_error_message and the status bar
  // ---------------------------------------------------------------------

  datatype ErrorKind = ApiKeyError | OllamaError | TimeoutError | GenericError

  /** The keyword test of `_format_error_message`, on the lower-cased message, in priority order. */
  function Classify(message: string): (k: ErrorKind)
    ensures var l := Lower(message);
      && (k == ApiKeyError <==> Contains(l, "api key") || Contains(l, "api_key"))
      && (k == OllamaError <==> !Contains(l, "api key") && !Contains(l, "api_key") && Contains(l, "ollama"))
      && (k == TimeoutError <==>
            !Contains(l, "api key") && !Contains(l, "api_key") && !Contains(l, "ollama") && Contains(l, "timeout"))
  {
    var l := Lower(message);
    if Contains(l, "api key") || Contains(l, "api_key") then ApiKeyError
    else if Contains(l, "ollama") then OllamaError
    else if Contains(l, "timeout") then TimeoutError
    else GenericError
  }

  /** Classification ignores case: a message and its lower-cased form fall in the same branch. */
  lemma ClassifyIgnoresCase(message: string)
    ensures Classify(Lower(message)) == Classify(message)
  {
    LowerIdempotent(message);
  }

  /** The first line of each formatted message. */
  function Headline(k: ErrorKind): string {
    match k
    case ApiKeyError => "API Key Error:"
    case OllamaError => "Ollama Connection Error:"
    case TimeoutError => "Timeout Error:"
    case GenericError => "An error occurred during processing:"
  }

  /** The advice each keyword class puts between its headline and the original message. */
  const ApiKeyAdvice: string :=
    "One or more API keys may be missing or invalid.\n\n"
    + "Please check:\n"
    + "1. Your .env file has valid API keys\n"
    + "2. API keys are not expired\n"
    + "3. You have internet connection\n\n"
    + "Technical details: "
  const OllamaAdvice: string :=
    "Unable to connect to Ollama service.\n\n"
    + "Please check:\n"
    + "1. Ollama is installed and running\n"
    + "2. Run 'ollama serve' if needed\n"
    + "3. Required models are installed\n\n"
    + "Technical details: "
  const TimeoutAdvice: string :=
    "The request took too long to complete.\n\n"
    + "This could be due to:\n"
    + "1. Slow internet connection\n"
    + "2. API service temporarily unavailable\n"
    + "3. Large input text\n\n"
    + "Please try again.\n\n"
    + "Technical details: "
  /** The advice the generic class puts after the original message. */
  const GenericAdvice: string :=
    "\n\n"
    + "Please check your input and try again. "
    + "If the problem persists, check the logs for more details."

  /** The advice a class puts before the original message. */
  function AdviceBefore(k: ErrorKind): string {
    match k
    case ApiKeyError => ApiKeyAdvice
    case OllamaError => OllamaAdvice
    case TimeoutError => TimeoutAdvice
    case GenericError => ""
  }

  /** The advice a class puts after the original message. */
  function AdviceAfter(k: ErrorKind): string {
    if k == GenericError then GenericAdvice else ""
  }

  /** Everything after the headline and its blank line. */
  function Details(k: ErrorKind, message: string): string {
    AdviceBefore(k) + message + AdviceAfter(k)
  }

  /** Every class adds more than 50 characters of advice around the message. */
  lemma AdviceLength(k: ErrorKind)
    ensures |AdviceBefore(k)| + |AdviceAfter(k)| > 50
  {
  }

  /** Every headline is one line and fits the status bar. */
  lemma HeadlineFits(k: ErrorKind)
    ensures '\n' !in Headline(k) && |Headline(k)| <= 50
  {
  }

  /**
   * `_format_error_message(error_msg)`: the headline of the message's
   * class, a blank line, the advice; the original message always appears
   * verbatim in the result.
   */
  function FormatError(message: string): (r: string)
    ensures var h := Headline(Classify(message));
      |h| + 2 <= |r| && r[..|h| + 2] == h + "\n\n"
    ensures Contains(r, message)
    ensures |r| > 50
  {
    var k := Classify(message);
    AdviceLength(k);
    Framed(Headline(k), AdviceBefore(k), message, AdviceAfter(k));
    Headline(k) + "\n\n" + Details(k, message)
  }

  /** A message framed by a headline, a blank line and advice before and after it. */
  lemma Framed(h: string, before: string, message: string, after: string)
    ensures var r := h + "\n\n" + (before + message + after);
      && r[..|h| + 2] == h + "\n\n"
      && Contains(r, message)
      && |r| == |h| + 2 + |before| + |message| + |after|
  {
    var r := h + "\n\n" + (before + message + after);
    assert r == (h + "\n\n" + before) + message + after;
    ContainsMiddle(h + "\n\n" + before, message, after);
    assert r[..|h| + 2] == h + "\n\n";
  }

  const StatusLimit: nat := 50

  /** `error_msg.split('\n')[0]`. */
  function FirstLine(message: string): (line: string)
    ensures '\n' !in line && line <= message
  {
    SplitHead(message, '\n')
  }

  /**
   * The status-bar text of `show_error`: the first line, cut to 50
   * characters with "..." appended when the WHOLE message is longer than
   * 50; otherwise the first line as it is.
   */
  function StatusText(message: string): (r: string)
    ensures |message| <= StatusLimit ==> r == FirstLine(message)
    ensures |message| > StatusLimit ==>
              |r| >= 3 && r[|r| - 3..] == "..." && r[..|r| - 3] == Take(FirstLine(message), StatusLimit)
    ensures '\n' !in r && |r| <= StatusLimit + 3
  {
    if |message| > StatusLimit then Take(FirstLine(message), StatusLimit) + "..." else FirstLine(message)
  }

  lemma {:induction false} SplitHeadOfJoin(a: string, sep: char, b: string)
    requires sep !in a
    ensures SplitHead(a + [sep] + b, sep) == a
  {
    if a != [] {
      assert (a + [sep] + b)[1..] == a[1..] + [sep] + b;
      SplitHeadOfJoin(a[1..], sep, b);
    }
  }

  /**
   * The length test reads the whole message: a short first line followed
   * by more text still gets "..." though nothing of the line was cut.
   */
  lemma EllipsisAfterShortFirstLine(line: string, rest: string)
    requires '\n' !in line && |line| <= StatusLimit
    requires |line| + 1 + |rest| > StatusLimit
    ensures StatusText(line + "\n" + rest) == line + "..."
  {
    SplitHeadOfJoin(line, '\n', rest);
  }

  /** What the status bar shows for a failed deliberation: only the headline of the class, and "...". */
  lemma StatusOfFormattedError(message: string)
    ensures StatusText(FormatError(message)) == Headline(Classify(message)) + "..."
  {
    HeadlineFits(Classify(message));
    StatusOfHeadedText(Headline(Classify(message)), FormatError(message));
  }

  /** A text longer than 50 that opens with a short line and a blank line shows as that line and "...". */
  lemma StatusOfHeadedText(h: string, r: string)
    requires '\n' !in h && |h| <= StatusLimit
    requires |r| > StatusLimit && |h| + 2 <= |r| && r[..|h| + 2] == h + "\n\n"
    ensures StatusText(r) == h + "..."
  {
    var rest := r[|h| + 1..];
    assert r[..|h|] == h && r[|h|] == '\n' by {
      assert r[..|h| + 2][..|h|] == r[..|h|];
      assert r[..|h| + 2][|h|] == r[|h|];
    }
    assert r == h + "\n" + rest by {
      assert r == r[..|h|] + [r[|h|]] + rest;
    }
    EllipsisAfterShortFirstLine(h, rest);
  }

  // ---------------------------------------------------------------------
  // The model selector
  // ---------------------------------------------------------------------

  /**
   * The dropdown label of `update_dropdown_display`, from the names whose
   * boxes are ticked (in checkbox order) and the size of the roster.
   */
  function DropdownLabel(selected: seq<string>, total: nat): (caption: string)
    ensures |selected| == 0 ==> caption == "No models selected"
    ensures 0 < |selected| == total ==> caption == "All models selected (" + NatToString(total) + ")"
    ensures |selected| == 1 && total != 1 ==> caption == selected[0]
    ensures |selected| == 2 && total != 2 ==> caption == selected[0] + ", " + selected[1]
    ensures 2 < |selected| && |selected| != total ==>
              caption == selected[0] + ", " + selected[1] + ", +" + NatToString(|selected| - 2) + " more"
  {
    if |selected| == 0 then "No models selected"
    else if |selected| == total then "All models selected (" + NatToString(total) + ")"
    else if |selected| <= 2 then Join(selected, ", ")
    else selected[0] + ", " + selected[1] + ", +" + NatToString(|selected| - 2) + " more"
  }

  /** One entry of the `model_checkboxes` dict, which keeps insertion order. */
  datatype Checkbox = Checkbox(name: string, checked: bool)

  function Keys(boxes: seq<Checkbox>): (ks: seq<string>)
    ensures |ks| == |boxes|
    ensures forall i :: 0 <= i < |boxes| ==> ks[i] == boxes[i].name
  {
    seq(|boxes|, i requires 0 <= i < |boxes| => boxes[i].name)
  }

  /** `model_checkboxes.get(name)`: the tick of the box for `name`, if there is one. */
  function Lookup(boxes: seq<Checkbox>, name: string): (r: Option<bool>)
    ensures r.None? <==> name !in Keys(boxes)
    ensures r.Some? ==> Checkbox(name, r.value) in boxes
  {
    if boxes == [] then None
    else if boxes[|boxes| - 1].name == name then Some(boxes[|boxes| - 1].checked)
    else
      assert Keys(boxes) == Keys(boxes[..|boxes| - 1]) + [boxes[|boxes| - 1].name];
      Lookup(boxes[..|boxes| - 1], name)
  }

  /** `model_checkboxes[name] = BooleanVar(value=v)`: overwrite in place, or append a new key. */
  function Put(boxes: seq<Checkbox>, name: string, v: bool): seq<Checkbox> {
    if name in Keys(boxes) then boxes[FirstIndex(Keys(boxes), name) := Checkbox(name, v)]
    else boxes + [Checkbox(name, v)]
  }

  /** Ticked boxes, one per name. */
  function Ticked(names: seq<string>): (boxes: seq<Checkbox>)
    ensures |boxes| == |names|
    ensures forall i :: 0 <= i < |names| ==> boxes[i] == Checkbox(names[i], true)
  {
    seq(|names|, i requires 0 <= i < |names| => Checkbox(names[i], true))
  }

  lemma PutTicked(names: seq<string>, name: string)
    ensures Put(Ticked(names), name, true) == Ticked(if name in names then names else names + [name])
  {
    var b := Ticked(names);
    assert Keys(b) == names;
  }

  /** The names of the ticked boxes, in dict order. */
  function CheckedNames(boxes: seq<Checkbox>): (ns: seq<string>)
    ensures |ns| <= |boxes|
    ensures forall x :: x in ns <==> Checkbox(x, true) in boxes
  {
    if boxes == [] then []
    else
      var b := boxes[|boxes| - 1];
      CheckedNames(boxes[..|boxes| - 1]) + (if b.checked then [b.name] else [])
  }

  lemma {:induction false} CheckedNamesOfTicked(names: seq<string>)
    ensures CheckedNames(Ticked(names)) == names
  {
    if names != [] {
      var p := names[..|names| - 1];
      assert Ticked(names)[..|names| - 1] == Ticked(p);
      CheckedNamesOfTicked(p);
    }
  }

  function NamesOf(models: seq<ModelConfig>): (ns: seq<string>)
    ensures |ns| == |models|
    ensures forall i :: 0 <= i < |models| ==> ns[i] == models[i].name
  {
    seq(|models|, i requires 0 <= i < |models| => models[i].name)
  }

  /** The filter of `apply_model_selection`: the roster entries whose name has a ticked box, in roster order. */
  function Chosen(models: seq<ModelConfig>, boxes: seq<Checkbox>): seq<ModelConfig> {
    if models == [] then []
    else
      var m := models[|models| - 1];
      Chosen(models[..|models| - 1], boxes) + (if Lookup(boxes, m.name) == Some(true) then [m] else [])
  }

  /** The ticked names of two runs of boxes, in dict order: those of the first run, then those of the second. */
  lemma {:induction false} CheckedNamesAppend(a: seq<Checkbox>, b: seq<Checkbox>)
    ensures CheckedNames(a + b) == CheckedNames(a) + CheckedNames(b)
  {
    if b != [] {
      var q := b[..|b| - 1];
      assert (a + b)[..|a + b| - 1] == a + q;
      CheckedNamesAppend(a, q);
    } else {
      assert a + b == a;
    }
  }

  /** A single box contributes its name exactly when it is ticked. */
  lemma CheckedNamesOne(b: Checkbox)
    ensures CheckedNames([b]) == if b.checked then [b.name] else []
  {
    assert [b][..0] == [];
  }

  /** The selection of two runs of roster entries, in roster order: that of the first run, then that of the second. */
  lemma {:induction false} ChosenAppend(a: seq<ModelConfig>, b: seq<ModelConfig>, boxes: seq<Checkbox>)
    ensures Chosen(a + b, boxes) == Chosen(a, boxes) + Chosen(b, boxes)
  {
    if b != [] {
      var q := b[..|b| - 1];
      assert (a + b)[..|a + b| - 1] == a + q;
      ChosenAppend(a, q, boxes);
    } else {
      assert a + b == a;
    }
  }

  /** A single roster entry is selected exactly when the box of its name is ticked. */
  lemma ChosenOne(m: ModelConfig, boxes: seq<Checkbox>)
    ensures Chosen([m], boxes) == if Lookup(boxes, m.name) == Some(true) then [m] else []
  {
    assert [m][..0] == [];
  }

  /** An entry is chosen exactly when it is on the roster and its name's box is ticked. */
  lemma {:induction false} ChosenMembers(models: seq<ModelConfig>, boxes: seq<Checkbox>)
    ensures |Chosen(models, boxes)| <= |models|
    ensures forall m :: m in Chosen(models, boxes) <==> m in models && Lookup(boxes, m.name) == Some(true)
  {
    if models != [] {
      var p := models[..|models| - 1];
      ChosenMembers(p, boxes);
      assert models == p + [models[|models| - 1]];
    }
  }

  lemma {:induction false} LookupTicked(names: seq<string>, name: string)
    ensures Lookup(Ticked(names), name) == if name in names then Some(true) else None
  {
    if names != [] {
      var p := names[..|names| - 1];
      assert Ticked(names)[..|names| - 1] == Ticked(p);
      LookupTicked(p, name);
      assert names == p + [names[|names| - 1]];
    }
  }

  /** With every box ticked, the selection is the whole roster. */
  lemma {:induction false} ChosenAllTicked(models: seq<ModelConfig>, names: seq<string>)
    requires forall m :: m in models ==> m.name in names
    ensures Chosen(models, Ticked(names)) == models
  {
    if models != [] {
      var p := models[..|models| - 1];
      ChosenAllTicked(p, names);
      LookupTicked(names, models[|models| - 1].name);
      assert models == p + [models[|models| - 1]];
    }
  }

  /**
   * The label right after the checkboxes are filled: "All models selected
   * (N)" when the roster's names are distinct; with a repeated name the
   * dict holds fewer boxes than the roster has entries, so the label takes
   * the partial-selection branch although every box is ticked.
   */
  lemma PopulatedLabel(models: seq<ModelConfig>)
    requires models != []
    ensures var boxes := Ticked(Dedup(NamesOf(models)));
      var caption := DropdownLabel(CheckedNames(boxes), |models|);
      && (NoDuplicates(NamesOf(models)) ==> caption == "All models selected (" + NatToString(|models|) + ")")
      && (!NoDuplicates(NamesOf(models)) ==> 0 < |CheckedNames(boxes)| < |models|)
  {
    var ns := NamesOf(models);
    var d := Dedup(ns);
    CheckedNamesOfTicked(d);
    DedupElements(ns);
    assert ns[0] in d;
    if NoDuplicates(ns) {
      DedupOfDistinct(ns);
    } else {
      DedupShorter(ns);
    }
  }

  /** A list with a repeat loses at least one element to `Dedup`. */
  lemma {:induction false} DedupShorter(xs: seq<string>)
    ensures |Dedup(xs)| <= |xs|
    ensures !NoDuplicates(xs) ==> |Dedup(xs)| < |xs|
  {
    if xs != [] {
      var p := xs[..|xs| - 1];
      var y := xs[|xs| - 1];
      DedupShorter(p);
      DedupElements(p);
      if !NoDuplicates(xs) && NoDuplicates(p) {
        var i, j :| 0 <= i < j < |xs| && xs[i] == xs[j];
        assert j == |xs| - 1;
        assert y in p && y in Dedup(p);
      }
    }
  }

  // ---------------------------------------------------------------------
  // The availability status of check_availability
  // ---------------------------------------------------------------------

  /** How many roster entries have provider "ollama". */
  function OllamaCount(models: seq<ModelConfig>): (n: nat)
    ensures n <= |models|
    ensures n == 0 <==> forall m :: m in models ==> m.provider != "ollama"
    ensures n == |models| <==> forall m :: m in models ==> m.provider == "ollama"
  {
    if models == [] then 0
    else
      var p, m := models[..|models| - 1], models[|models| - 1];
      assert models == p + [m];
      OllamaCount(p) + (if m.provider == "ollama" then 1 else 0)
  }

  const ReadyPrefix: string := "✅ "
  const ModelsAvailable: string := " models available"
  const OllamaWord: string := " Ollama"
  const ApiWord: string := " API"
  const ReadySuffix: string := " - Select models to use"

  /**
   * The status `check_availability` shows for a non-empty roster: the
   * total, then in parentheses the Ollama and the API counts that are
   * not zero.
   */
  function AvailabilityStatus(models: seq<ModelConfig>): (s: string)
    requires models != []
    ensures var n, o := |models|, OllamaCount(models);
      var head := ReadyPrefix + NatToString(n) + ModelsAvailable + " (";
      && (0 < o < n ==>
            s == head + NatToString(o) + OllamaWord + ", " + NatToString(n - o) + ApiWord + ")" + ReadySuffix)
      && (o == n ==> s == head + NatToString(n) + OllamaWord + ")" + ReadySuffix)
      && (o == 0 ==> s == head + NatToString(n) + ApiWord + ")" + ReadySuffix)
  {
    var o := OllamaCount(models);
    var a := |models| - o;
    var total := ReadyPrefix + NatToString(|models|) + ModelsAvailable;
    var withOllama := if o > 0 then total + " (" + NatToString(o) + OllamaWord else total;
    var withApi :=
      if a > 0 then withOllama + (if o > 0 then ", " + NatToString(a) + ApiWord else " (" + NatToString(a) + ApiWord)
      else withOllama;
    var closed := if o > 0 || a > 0 then withApi + ")" else withApi;
    StatusPieces(total, NatToString(o), NatToString(a), OllamaWord, ApiWord, ReadySuffix);
    closed + ReadySuffix
  }

  /** The re-bracketing `AvailabilityStatus` needs, on arbitrary pieces. */
  lemma StatusPieces(t: string, o: string, a: string, ow: string, aw: string, suffix: string)
    ensures t + " (" + o + ow + (", " + a + aw) + ")" + suffix == t + " (" + o + ow + ", " + a + aw + ")" + suffix
    ensures t + (" (" + a + aw) + ")" + suffix == t + " (" + a + aw + ")" + suffix
  {
  }

  /** A roster whose first `n` entries are Ollama models and the rest not has Ollama count `n`. */
  lemma {:induction false} OllamaCountOfSplit(models: seq<ModelConfig>, n: nat)
    requires n <= |models|
    requires forall i :: 0 <= i < n ==> models[i].provider == "ollama"
    requires forall i :: n <= i < |models| ==> models[i].provider != "ollama"
    ensures OllamaCount(models) == n
  {
    if |models| > n {
      var p := models[..|models| - 1];
      OllamaCountOfSplit(p, n);
    } else {
      assert forall m :: m in models ==> m.provider == "ollama";
    }
  }

  /**
   * The counts in the status: the Ollama count is the number of models
   * the listing auto-detected, the API count the number of keyed API
   * models admitted from the configuration.
   */
  lemma AvailabilityCounts(connected: bool, listing: Listing, configs: seq<ModelConfig>)
    ensures var r := AssembledRoster(connected, listing, configs);
      OllamaCount(r.available) == |FullNames(connected, listing)|
  {
    AssembledRosterSpec(connected, listing, configs);
    var r := AssembledRoster(connected, listing, configs);
    OllamaCountOfSplit(r.available, |FullNames(connected, listing)|);
  }

  // ---------------------------------------------------------------------
  // The window
  // ---------------------------------------------------------------------

  const NoModelsAvailableLabel: string := "No models available"
  const NoModelsAvailableStatus: string := "⚠️ No models available. Check API keys or Ollama."
  const ErrorPrefix: string := "❌ Error: "

  /** The state `CouncilGUI` keeps across its callbacks. */
  class CouncilWindow {
    var availableModels: seq<ModelConfig>
    var checkboxes: seq<Checkbox>
    var selectedModels: seq<ModelConfig>
    var dropdownText: string
    var statusText: string

    /** The boxes are a dict: no name has two of them. */
    predicate Valid()
      reads this
    {
      NoDuplicates(Keys(checkboxes))
    }

    constructor ()
      ensures availableModels == [] && checkboxes == [] && selectedModels == []
      ensures Valid()
    {
      availableModels := [];
      checkboxes := [];
      selectedModels := [];
      dropdownText := "";
      statusText := "";
    }

    /**
     * `update_dropdown_display()`: nothing when the roster is empty,
     * otherwise the label for the ticked boxes.
     */
    method UpdateDropdownDisplay()
      modifies this`dropdownText
      ensures availableModels == [] ==> dropdownText == old(dropdownText)
      ensures availableModels != [] ==> dropdownText == DropdownLabel(CheckedNames(checkboxes), |availableModels|)
    {
      if availableModels == [] {
        return;
      }
      dropdownText := DropdownLabel(CheckedNames(checkboxes), |availableModels|);
    }

    /**
     * `apply_model_selection()`: the roster entries whose box is ticked, in
     * roster order; an empty selection is refused (the warning box) and the
     * previous selection stays.
     */
    method ApplyModelSelection() returns (applied: bool)
      modifies this`selectedModels
      ensures applied <==> Chosen(availableModels, checkboxes) != []
      ensures applied ==> selectedModels == Chosen(availableModels, checkboxes)
      ensures !applied ==> selectedModels == old(selectedModels)
    {
      var selected: seq<ModelConfig> := [];
      var i := 0;
      while i < |availableModels|
        invariant 0 <= i <= |availableModels|
        invariant selected == Chosen(availableModels[..i], checkboxes)
      {
        var config := availableModels[i];
        assert availableModels[..i + 1][..i] == availableModels[..i];
        if Lookup(checkboxes, config.name) == Some(true) {
          selected := selected + [config];
        }
        i := i + 1;
      }
      assert availableModels[..i] == availableModels;
      if selected == [] {
        return false;
      }
      selectedModels := selected;
      return true;
    }

    /**
     * `populate_model_checkboxes(models)`: store the roster; for an empty one
     * show "No models available"; otherwise tick one box per distinct name,
     * refresh the label, and apply the selection.
     */
    method PopulateModelCheckboxes(models: seq<ModelConfig>)
      modifies this`availableModels, this`checkboxes, this`dropdownText, this`selectedModels
      requires Valid()
      ensures Valid()
      ensures availableModels == models
      ensures models == [] ==>
                dropdownText == NoModelsAvailableLabel && checkboxes == old(checkboxes) &&
                selectedModels == old(selectedModels)
      ensures models != [] ==>
                && checkboxes == Ticked(Dedup(NamesOf(models)))
                && dropdownText == DropdownLabel(CheckedNames(checkboxes), |models|)
                && selectedModels == models
    {
      availableModels := models;
      if models == [] {
        dropdownText := NoModelsAvailableLabel;
        return;
      }
      checkboxes := [];
      var i := 0;
      while i < |models|
        invariant 0 <= i <= |models|
        invariant availableModels == models
        invariant checkboxes == Ticked(Dedup(NamesOf(models[..i])))
      {
        var name := models[i].name;
        assert NamesOf(models[..i + 1]) == NamesOf(models[..i]) + [name];
        DedupSnoc(NamesOf(models[..i]), name);
        PutTicked(Dedup(NamesOf(models[..i])), name);
        checkboxes := Put(checkboxes, name, true);
        i := i + 1;
      }
      assert models[..i] == models;
      UpdateDropdownDisplay();
      DedupElements(NamesOf(models));
      assert Keys(checkboxes) == Dedup(NamesOf(models));
      ChosenAllTicked(models, Dedup(NamesOf(models)));
      var applied := ApplyModelSelection();
    }

    /**
     * The worker of `check_availability()`: probe Ollama, assemble the
     * roster from the second listing and the config, store it, fill the
     * selector and show the availability status. Returns the skipped
     * notes it logs.
     */
    method CheckAvailability(probe: Listing, listing: Listing, configs: seq<ModelConfig>)
      returns (skipped: seq<string>)
      modifies this
      requires Valid()
      ensures Valid()
      ensures var r := AssembledRoster(!probe.ListFailed?, listing, configs);
        && availableModels == r.available && skipped == r.skipped
        && (r.available == [] ==>
              && statusText == NoModelsAvailableStatus && dropdownText == NoModelsAvailableLabel
              && checkboxes == old(checkboxes) && selectedModels == old(selectedModels))
        && (r.available != [] ==>
              && selectedModels == r.available
              && checkboxes == Ticked(Dedup(NamesOf(r.available)))
              && dropdownText == DropdownLabel(CheckedNames(checkboxes), |r.available|)
              && statusText == AvailabilityStatus(r.available))
    {
      var connected, baseNames := CheckConnection(probe);
      var available;
      available, skipped := Assemble(connected, listing, configs);
      availableModels := available;
      PopulateModelCheckboxes(available);
      if available == [] {
        statusText := NoModelsAvailableStatus;
      } else {
        statusText := AvailabilityStatus(available);
      }
    }

    /** `show_error(error_msg)`: the status bar gets the truncated first line. */
    method ShowError(message: string)
      modifies this`statusText
      ensures statusText == ErrorPrefix + StatusText(message)
    {
      statusText := ErrorPrefix + StatusText(message);
    }

    /**
     * The failure branch of `run_deliberation`: format the error and show
     * it; the status bar then names only the class of the error.
     */
    method DeliberationFailed(error: string) returns (shown: string)
      modifies this`statusText
      ensures shown == FormatError(error)
      ensures statusText == ErrorPrefix + Headline(Classify(error)) + "..."
    {
      shown := FormatError(error);
      ShowError(shown);
      StatusOfFormattedError(error);
    }
  }
}
