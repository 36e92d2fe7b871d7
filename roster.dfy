/**
 * Roster assembly, the same logic in main.py and main_gui.py: reading the
 * Ollama model listing, the de-duplicated base names that
 * `check_ollama_connection` reports, and the merge of auto-detected Ollama
 * models with the configured API models that have a key.
 */
module Roster {

  import opened Wrappers
  import opened Text
  import opened Models

  /** One entry of the Ollama listing: its optional "model" and "name" fields. */
  datatype ListedModel = ListedModel(model: Option<string>, name: Option<string>)

  /**
   * What `ollama.Client().list()` gave: it raised, it returned something
   * that is not a dict with a "models" key, or it returned the model list.
   */
  datatype Listing = ListFailed(cause: string) | Malformed | Models(entries: seq<ListedModel>)

  /** `model.get('model') or model.get('name', '')`. */
  function EntryName(e: ListedModel): (n: string)
    ensures n == "" ==> e.model.None? || e.model.value == ""
    ensures e.model.Some? && e.model.value != "" ==> n == e.model.value
    ensures !(e.model.Some? && e.model.value != "") ==> n == (if e.name.Some? then e.name.value else "")
  {
    if e.model.Some? && e.model.value != "" then e.model.value
    else if e.name.Some? then e.name.value
    else ""
  }

  /** The non-empty entry names, in listing order; entries without a name are skipped. */
  function ListedNames(entries: seq<ListedModel>): (names: seq<string>)
    ensures |names| <= |entries|
    ensures forall i :: 0 <= i < |names| ==> names[i] != ""
  {
    if entries == [] then []
    else
      var n := EntryName(entries[|entries| - 1]);
      ListedNames(entries[..|entries| - 1]) + (if n == "" then [] else [n])
  }

  lemma {:induction false} ListedNamesComplete(entries: seq<ListedModel>, e: ListedModel)
    requires e in entries && EntryName(e) != ""
    ensures EntryName(e) in ListedNames(entries)
  {
    var p := entries[..|entries| - 1];
    if e != entries[|entries| - 1] {
      assert e in p;
      ListedNamesComplete(p, e);
    }
  }

  lemma {:induction false} ListedNamesSound(entries: seq<ListedModel>, n: string)
    requires n in ListedNames(entries)
    ensures exists e :: e in entries && EntryName(e) == n
  {
    var p := entries[..|entries| - 1];
    var last := entries[|entries| - 1];
    if n in ListedNames(p) {
      ListedNamesSound(p, n);
      var e :| e in p && EntryName(e) == n;
      assert e in entries;
    } else {
      assert EntryName(last) == n;
    }
  }

  /** The base names (tag after the first ':' removed) of a list of names. */
  function Bases(names: seq<string>): (bs: seq<string>)
    ensures |bs| == |names|
    ensures forall i :: 0 <= i < |names| ==> bs[i] == SplitHead(names[i], ':')
  {
    seq(|names|, i requires 0 <= i < |names| => SplitHead(names[i], ':'))
  }

  // ---------------------------------------------------------------------
  // De-duplication keeping first-seen order
  // ---------------------------------------------------------------------

  predicate NoDuplicates(xs: seq<string>) {
    forall i, j :: 0 <= i < j < |xs| ==> xs[i] != xs[j]
  }

  /** The list `if x not in out: out.append(x)` builds, one element at a time. */
  function Dedup(xs: seq<string>): seq<string> {
    if xs == [] then []
    else
      var d := Dedup(xs[..|xs| - 1]);
      var x := xs[|xs| - 1];
      if x in d then d else d + [x]
  }

  /** Index of the first occurrence of `x`. */
  function FirstIndex(xs: seq<string>, x: string): (k: nat)
    requires x in xs
    ensures k < |xs| && xs[k] == x && x !in xs[..k]
  {
    if xs[0] == x then 0 else 1 + FirstIndex(xs[1..], x)
  }

  lemma {:induction false} FirstIndexSnoc(xs: seq<string>, y: string, x: string)
    requires x in xs + [y]
    ensures x in xs ==> FirstIndex(xs + [y], x) == FirstIndex(xs, x)
    ensures x !in xs ==> FirstIndex(xs + [y], x) == |xs|
  {
    if xs != [] && xs[0] != x {
      assert (xs + [y])[1..] == xs[1..] + [y];
      FirstIndexSnoc(xs[1..], y, x);
    }
  }

  lemma DedupSnoc(xs: seq<string>, y: string)
    ensures Dedup(xs + [y]) == if y in Dedup(xs) then Dedup(xs) else Dedup(xs) + [y]
  {
    assert (xs + [y])[..|xs|] == xs;
  }

  /** `Dedup` keeps each element once, loses none, and invents none. */
  lemma {:induction false} DedupElements(xs: seq<string>)
    ensures NoDuplicates(Dedup(xs))
    ensures forall x :: x in Dedup(xs) <==> x in xs
  {
    if xs != [] {
      var p := xs[..|xs| - 1];
      DedupElements(p);
      assert xs == p + [xs[|xs| - 1]];
    }
  }

  /** `Dedup` lists elements in the order of their first occurrence: of any two positions, the earlier element was seen first. */
  lemma {:induction false} DedupFirstSeenOrder(xs: seq<string>, i: nat, j: nat)
    requires i < j < |Dedup(xs)|
    ensures Dedup(xs)[i] in xs && Dedup(xs)[j] in xs
    ensures FirstIndex(xs, Dedup(xs)[i]) < FirstIndex(xs, Dedup(xs)[j])
  {
    var p, y := xs[..|xs| - 1], xs[|xs| - 1];
    assert xs == p + [y];
    DedupSnoc(p, y);
    DedupElements(p);
    var d := Dedup(p);
    var a, b := Dedup(xs)[i], Dedup(xs)[j];
    assert a == d[i] && a in p;
    FirstIndexSnoc(p, y, a);
    if j < |d| {
      DedupFirstSeenOrder(p, i, j);
      assert b == d[j] && b in p;
      FirstIndexSnoc(p, y, b);
    } else {
      assert b == y && y !in p;
      FirstIndexSnoc(p, y, b);
    }
  }

  /** A list that already has no repeats is left as it is. */
  lemma {:induction false} DedupOfDistinct(xs: seq<string>)
    requires NoDuplicates(xs)
    ensures Dedup(xs) == xs
  {
    if xs != [] {
      var p := xs[..|xs| - 1];
      DedupOfDistinct(p);
      DedupElements(p);
      assert xs[|xs| - 1] !in p;
    }
  }

  // ---------------------------------------------------------------------
  // check_ollama_connection
  // ---------------------------------------------------------------------

  /** The base names `check_ollama_connection` reports for a listing's entries. */
  function DetectedBases(entries: seq<ListedModel>): seq<string> {
    Dedup(Bases(ListedNames(entries)))
  }

  /**
   * `check_ollama_connection()`: (True, base names) when the listing came
   * back, (True, []) when it has no model list, (False, []) when it raised.
   */
  method CheckConnection(listing: Listing) returns (connected: bool, names: seq<string>)
    ensures connected <==> !listing.ListFailed?
    ensures listing.Models? ==> names == DetectedBases(listing.entries)
    ensures !listing.Models? ==> names == []
  {
    if listing.ListFailed? {
      return false, [];
    }
    if !listing.Models? {
      return true, [];
    }
    var entries := listing.entries;
    connected := true;
    names := [];
    ghost var candidates: seq<string> := [];
    var i := 0;
    while i < |entries|
      invariant 0 <= i <= |entries|
      invariant candidates == Bases(ListedNames(entries[..i]))
      invariant names == Dedup(candidates)
    {
      var modelName := EntryName(entries[i]);
      CandidatesStep(entries, i);
      if modelName != "" {
        var baseName := SplitHead(modelName, ':');
        DedupSnoc(candidates, baseName);
        candidates := candidates + [baseName];
        if baseName !in names {
          names := names + [baseName];
        }
      }
      i := i + 1;
    }
    assert entries[..i] == entries;
  }

  /** One more listing entry adds its base name, if it has a name. */
  lemma CandidatesStep(entries: seq<ListedModel>, i: nat)
    requires i < |entries|
    ensures var n := EntryName(entries[i]);
      Bases(ListedNames(entries[..i + 1])) ==
        Bases(ListedNames(entries[..i])) + (if n == "" then [] else [SplitHead(n, ':')])
  {
    assert entries[..i + 1][..i] == entries[..i];
    var n := EntryName(entries[i]);
    var l := ListedNames(entries[..i]);
    if n != "" {
      assert ListedNames(entries[..i + 1]) == l + [n];
      assert Bases(l + [n]) == Bases(l) + [SplitHead(n, ':')];
    }
  }

  /**
   * The reported base names: each is the part before the first ':' of a
   * listed non-empty name, every such part is reported, and none twice.
   */
  lemma DetectedBasesSpec(entries: seq<ListedModel>)
    ensures NoDuplicates(DetectedBases(entries))
    ensures forall b :: b in DetectedBases(entries) ==>
              ':' !in b && exists e :: e in entries && EntryName(e) != "" && b == SplitHead(EntryName(e), ':')
    ensures forall e :: e in entries && EntryName(e) != "" ==> SplitHead(EntryName(e), ':') in DetectedBases(entries)
  {
    var names := ListedNames(entries);
    var c := Bases(names);
    DedupElements(c);
    forall b | b in DetectedBases(entries)
      ensures ':' !in b && exists e :: e in entries && EntryName(e) != "" && b == SplitHead(EntryName(e), ':')
    {
      var k :| 0 <= k < |c| && c[k] == b;
      ListedNamesSound(entries, names[k]);
    }
    forall e | e in entries && EntryName(e) != ""
      ensures SplitHead(EntryName(e), ':') in DetectedBases(entries)
    {
      ListedNamesComplete(entries, e);
      var k :| 0 <= k < |names| && names[k] == EntryName(e);
      assert c[k] == SplitHead(EntryName(e), ':');
    }
  }

  /** Of two reported base names, the earlier one is the base of an earlier listed name. */
  lemma DetectedBasesOrder(entries: seq<ListedModel>, i: nat, j: nat)
    requires i < j < |DetectedBases(entries)|
    ensures var c := Bases(ListedNames(entries));
      && DetectedBases(entries)[i] in c && DetectedBases(entries)[j] in c
      && FirstIndex(c, DetectedBases(entries)[i]) < FirstIndex(c, DetectedBases(entries)[j])
  {
    DedupFirstSeenOrder(Bases(ListedNames(entries)), i, j);
  }

  // ---------------------------------------------------------------------
  // The roster merge
  // ---------------------------------------------------------------------

  /** The config dict created for an auto-detected model: a name and provider "ollama". */
  function OllamaEntry(name: string): ModelConfig {
    ModelConfig(name, "ollama", "", None)
  }

  /** The auto-detected part of the roster, one Ollama entry per listed name, in order. */
  function DetectedRoster(names: seq<string>): (rs: seq<ModelConfig>)
    ensures |rs| == |names|
    ensures forall i :: 0 <= i < |names| ==> rs[i] == OllamaEntry(names[i])
  {
    seq(|names|, i requires 0 <= i < |names| => OllamaEntry(names[i]))
  }

  /** The full (tagged) names taken from the second listing, when Ollama answered the first. */
  function FullNames(connected: bool, listing: Listing): seq<string> {
    if connected && listing.Models? then ListedNames(listing.entries) else []
  }

  /** The lists being built: `available_models` and `skipped_models`. */
  datatype RosterState = RosterState(available: seq<ModelConfig>, skipped: seq<string>)

  /** `any(m["name"] == name and m["provider"] == provider for m in available)`. */
  predicate HasEntry(available: seq<ModelConfig>, name: string, provider: string) {
    exists m :: m in available && m.name == name && m.provider == provider
  }

  /** The note recorded for a configured API model that has no key. */
  function SkipNote(c: ModelConfig): string {
    c.name + " (no API key)"
  }

  /** One pass of the config loop. */
  function Admit(st: RosterState, c: ModelConfig): RosterState {
    if c.provider == "ollama" then st
    else if c.apiKey != "" then
      if HasEntry(st.available, c.name, c.provider) then st
      else st.(available := st.available + [c])
    else st.(skipped := st.skipped + [SkipNote(c)])
  }

  /** The config loop over `configs`, starting from `st`. */
  function MergeConfigs(st: RosterState, configs: seq<ModelConfig>): RosterState {
    if configs == [] then st
    else Admit(MergeConfigs(st, configs[..|configs| - 1]), configs[|configs| - 1])
  }

  /** The roster both front ends assemble. */
  function AssembledRoster(connected: bool, listing: Listing, configs: seq<ModelConfig>): RosterState {
    MergeConfigs(RosterState(DetectedRoster(FullNames(connected, listing)), []), configs)
  }

  /**
   * The two loops of the merge: every auto-detected Ollama model first,
   * then each configured model by the rules of `Admit`.
   */
  method Assemble(connected: bool, listing: Listing, configs: seq<ModelConfig>)
    returns (available: seq<ModelConfig>, skipped: seq<string>)
    ensures RosterState(available, skipped) == AssembledRoster(connected, listing, configs)
  {
    available := [];
    skipped := [];
    if connected && listing.Models? {
      var entries := listing.entries;
      var i := 0;
      while i < |entries|
        invariant 0 <= i <= |entries|
        invariant available == DetectedRoster(ListedNames(entries[..i]))
      {
        var modelName := EntryName(entries[i]);
        assert entries[..i + 1][..i] == entries[..i];
        if modelName != "" {
          available := available + [OllamaEntry(modelName)];
        }
        i := i + 1;
      }
      assert entries[..i] == entries;
    }
    ghost var start := RosterState(available, skipped);
    var k := 0;
    while k < |configs|
      invariant 0 <= k <= |configs|
      invariant RosterState(available, skipped) == MergeConfigs(start, configs[..k])
    {
      var config := configs[k];
      assert configs[..k + 1][..k] == configs[..k];
      if config.provider == "ollama" {
        // already covered by the auto-detected models
      } else if config.apiKey != "" {
        if !HasEntry(available, config.name, config.provider) {
          available := available + [config];
        }
      } else {
        skipped := skipped + [SkipNote(config)];
      }
      k := k + 1;
    }
    assert configs[..k] == configs;
  }

  /** The skip notes of the keyless API models, in config order. */
  function SkipNotes(configs: seq<ModelConfig>): seq<string> {
    if configs == [] then []
    else
      var c := configs[|configs| - 1];
      SkipNotes(configs[..|configs| - 1]) + (if c.provider != "ollama" && c.apiKey == "" then [SkipNote(c)] else [])
  }

  /** Whether `m` was appended after the first `n` entries. */
  predicate AppendedAfter(available: seq<ModelConfig>, n: nat, configs: seq<ModelConfig>) {
    forall k :: n <= k < |available| ==>
      available[k] in configs && available[k].provider != "ollama" && available[k].apiKey != ""
  }

  /**
   * The merge only appends: what was there stays in front; every appended
   * entry is a configured API model with a key, and repeats the (name,
   * provider) pair of no entry before it; the skipped list grows by exactly
   * the notes of the keyless API models.
   */
  lemma {:induction false} MergeAppends(st: RosterState, configs: seq<ModelConfig>)
    ensures var r := MergeConfigs(st, configs);
      && st.available <= r.available
      && AppendedAfter(r.available, |st.available|, configs)
      && (forall i, j :: 0 <= i < j < |r.available| && |st.available| <= j ==>
            !(r.available[i].name == r.available[j].name && r.available[i].provider == r.available[j].provider))
      && r.skipped == st.skipped + SkipNotes(configs)
  {
    if configs != [] {
      var p := configs[..|configs| - 1];
      var c := configs[|configs| - 1];
      MergeAppends(st, p);
      var m := MergeConfigs(st, p);
      var r := MergeConfigs(st, configs);
      assert r == Admit(m, c);
      forall k | |st.available| <= k < |r.available|
        ensures r.available[k] in configs && r.available[k].provider != "ollama" && r.available[k].apiKey != ""
      {
        if k < |m.available| {
          assert r.available[k] == m.available[k];
          assert m.available[k] in p;
        } else {
          assert r.available[k] == c;
        }
      }
      forall i, j | 0 <= i < j < |r.available| && |st.available| <= j
        ensures !(r.available[i].name == r.available[j].name && r.available[i].provider == r.available[j].provider)
      {
        if j >= |m.available| {
          assert r.available[j] == c && !HasEntry(m.available, c.name, c.provider);
          assert r.available[i] == m.available[i];
          assert r.available[i] in m.available;
        } else {
          assert r.available[i] == m.available[i] && r.available[j] == m.available[j];
        }
      }
    }
  }

  /** Every configured API model with a key ends up represented by its (name, provider). */
  lemma {:induction false} MergeCovers(st: RosterState, configs: seq<ModelConfig>)
    ensures forall c :: c in configs && c.provider != "ollama" && c.apiKey != "" ==>
              HasEntry(MergeConfigs(st, configs).available, c.name, c.provider)
  {
    if configs != [] {
      var p := configs[..|configs| - 1];
      var last := configs[|configs| - 1];
      MergeCovers(st, p);
      var m := MergeConfigs(st, p);
      var r := MergeConfigs(st, configs);
      MergeAppends(m, [last]);
      assert MergeConfigs(m, [last]) == r by { assert [last][..0] == []; }
      forall c | c in configs && c.provider != "ollama" && c.apiKey != ""
        ensures HasEntry(r.available, c.name, c.provider)
      {
        if c in p {
          var e :| e in m.available && e.name == c.name && e.provider == c.provider;
          assert e in r.available;
        } else {
          assert c == last;
          if !HasEntry(m.available, c.name, c.provider) {
            assert r.available[|r.available| - 1] == c;
          }
        }
      }
    }
  }

  /** `c` is a configured API model with a key whose (name, provider) pair is the given one. */
  predicate KeyedAs(c: ModelConfig, name: string, provider: string) {
    c.provider != "ollama" && c.apiKey != "" && c.name == name && c.provider == provider
  }

  /** Some config is an API model with a key for this (name, provider) pair. */
  predicate HasKeyed(configs: seq<ModelConfig>, name: string, provider: string) {
    exists l :: 0 <= l < |configs| && KeyedAs(configs[l], name, provider)
  }

  /** A match that is not at the head lies in the tail. */
  lemma HasKeyedTail(configs: seq<ModelConfig>, name: string, provider: string)
    requires HasKeyed(configs, name, provider) && !KeyedAs(configs[0], name, provider)
    ensures HasKeyed(configs[1..], name, provider)
  {
    var l :| 0 <= l < |configs| && KeyedAs(configs[l], name, provider);
    assert configs[1..][l - 1] == configs[l];
  }

  /** The position of the first config that is an API model with a key for this pair. */
  function FirstKeyed(configs: seq<ModelConfig>, name: string, provider: string): (k: nat)
    requires HasKeyed(configs, name, provider)
    ensures k < |configs| && KeyedAs(configs[k], name, provider)
    ensures forall l :: 0 <= l < k ==> !KeyedAs(configs[l], name, provider)
    decreases |configs|
  {
    if KeyedAs(configs[0], name, provider) then 0
    else
      HasKeyedTail(configs, name, provider);
      1 + FirstKeyed(configs[1..], name, provider)
  }

  /** Appending a config does not move a first match that exists already. */
  lemma FirstKeyedSnoc(p: seq<ModelConfig>, c: ModelConfig, name: string, provider: string)
    requires HasKeyed(p, name, provider)
    ensures HasKeyed(p + [c], name, provider)
    ensures FirstKeyed(p + [c], name, provider) == FirstKeyed(p, name, provider)
  {
    var k0 := FirstKeyed(p, name, provider);
    assert (p + [c])[k0] == p[k0];
  }

  /**
   * Each appended entry is the first config that is an API model with a
   * key for its (name, provider) pair: of several such configs, the
   * earliest is the one kept.
   */
  lemma {:induction false} MergeKeepsFirst(st: RosterState, configs: seq<ModelConfig>, k: nat)
    requires |st.available| <= k < |MergeConfigs(st, configs).available|
    ensures var e := MergeConfigs(st, configs).available[k];
      && HasKeyed(configs, e.name, e.provider)
      && e == configs[FirstKeyed(configs, e.name, e.provider)]
  {
    var p := configs[..|configs| - 1];
    var c := configs[|configs| - 1];
    var m := MergeConfigs(st, p);
    var r := MergeConfigs(st, configs);
    assert r == Admit(m, c);
    assert configs == p + [c];
    if k < |m.available| {
      MergeKeepsFirst(st, p, k);
      var e := m.available[k];
      assert r.available[k] == e;
      FirstKeyedSnoc(p, c, e.name, e.provider);
      assert p[FirstKeyed(p, e.name, e.provider)] == configs[FirstKeyed(p, e.name, e.provider)];
    } else {
      assert r.available[k] == c && !HasEntry(m.available, c.name, c.provider);
      assert KeyedAs(configs[|p|], c.name, c.provider);
      FirstCopyOfLast(st, configs);
    }
  }

  /** A config the merge appends last has no earlier config with its key. */
  lemma FirstCopyOfLast(st: RosterState, configs: seq<ModelConfig>)
    requires configs != []
    requires var c := configs[|configs| - 1];
      KeyedAs(c, c.name, c.provider)
      && !HasEntry(MergeConfigs(st, configs[..|configs| - 1]).available, c.name, c.provider)
    ensures var c := configs[|configs| - 1];
      HasKeyed(configs, c.name, c.provider) && FirstKeyed(configs, c.name, c.provider) == |configs| - 1
  {
    var p := configs[..|configs| - 1];
    var c := configs[|configs| - 1];
    assert configs[|configs| - 1] == c;
    MergeCovers(st, p);
  }

  /**
   * The appended entries keep config order: of two appended entries, the
   * earlier one comes from the earlier config.
   */
  lemma {:induction false} MergeOrder(st: RosterState, configs: seq<ModelConfig>, i: nat, j: nat)
    requires |st.available| <= i < j < |MergeConfigs(st, configs).available|
    ensures var r := MergeConfigs(st, configs).available;
      && HasKeyed(configs, r[i].name, r[i].provider)
      && HasKeyed(configs, r[j].name, r[j].provider)
      && FirstKeyed(configs, r[i].name, r[i].provider) < FirstKeyed(configs, r[j].name, r[j].provider)
  {
    var p := configs[..|configs| - 1];
    var c := configs[|configs| - 1];
    var m := MergeConfigs(st, p);
    var r := MergeConfigs(st, configs);
    assert r == Admit(m, c);
    assert configs == p + [c];
    var a := m.available[i];
    assert r.available[i] == a;
    MergeKeepsFirst(st, p, i);
    FirstKeyedSnoc(p, c, a.name, a.provider);
    if j < |m.available| {
      MergeOrder(st, p, i, j);
      var b := m.available[j];
      assert r.available[j] == b;
      FirstKeyedSnoc(p, c, b.name, b.provider);
    } else {
      assert r.available[j] == c && !HasEntry(m.available, c.name, c.provider);
      FirstCopyOfLast(st, configs);
    }
  }

  /** Keep the configs whose provider is not "ollama". */
  function ApiConfigs(configs: seq<ModelConfig>): seq<ModelConfig> {
    if configs == [] then []
    else
      var c := configs[|configs| - 1];
      ApiConfigs(configs[..|configs| - 1]) + (if c.provider != "ollama" then [c] else [])
  }

  /** Configured Ollama entries are ignored: dropping them from the config changes nothing. */
  lemma {:induction false} MergeIgnoresOllamaConfigs(st: RosterState, configs: seq<ModelConfig>)
    ensures MergeConfigs(st, configs) == MergeConfigs(st, ApiConfigs(configs))
  {
    if configs != [] {
      var p := configs[..|configs| - 1];
      var c := configs[|configs| - 1];
      MergeIgnoresOllamaConfigs(st, p);
      var a := ApiConfigs(p);
      if c.provider != "ollama" {
        assert ApiConfigs(configs) == a + [c];
        assert (a + [c])[..|a|] == a;
      } else {
        assert ApiConfigs(configs) == a;
      }
    }
  }

  /**
   * The assembled roster: the auto-detected Ollama models first, in listing
   * order, each with provider "ollama"; after them only configured API
   * models with a key; no configured Ollama entry anywhere; the skipped
   * list is exactly the notes of the keyless API models.
   */
  lemma AssembledRosterSpec(connected: bool, listing: Listing, configs: seq<ModelConfig>)
    ensures var r := AssembledRoster(connected, listing, configs);
      var names := FullNames(connected, listing);
      && |names| <= |r.available|
      && (forall i :: 0 <= i < |names| ==>
            r.available[i].name == names[i] && r.available[i].provider == "ollama")
      && AppendedAfter(r.available, |names|, configs)
      && (forall c :: c in configs && c.provider != "ollama" && c.apiKey != "" ==>
            HasEntry(r.available, c.name, c.provider))
      && r.skipped == SkipNotes(configs)
  {
    var st := RosterState(DetectedRoster(FullNames(connected, listing)), []);
    MergeAppends(st, configs);
    MergeCovers(st, configs);
    var r := AssembledRoster(connected, listing, configs);
    assert forall i :: 0 <= i < |st.available| ==> r.available[i] == st.available[i];
  }

  /**
   * The API part of the assembled roster follows config order, and of the
   * configs sharing a (name, provider) pair the first one with a key is
   * the one kept.
   */
  lemma AssembledRosterApiOrder(connected: bool, listing: Listing, configs: seq<ModelConfig>, i: nat, j: nat)
    requires |FullNames(connected, listing)| <= i < j < |AssembledRoster(connected, listing, configs).available|
    ensures var r := AssembledRoster(connected, listing, configs).available;
      && HasKeyed(configs, r[i].name, r[i].provider)
      && HasKeyed(configs, r[j].name, r[j].provider)
      && r[i] == configs[FirstKeyed(configs, r[i].name, r[i].provider)]
      && r[j] == configs[FirstKeyed(configs, r[j].name, r[j].provider)]
      && FirstKeyed(configs, r[i].name, r[i].provider) < FirstKeyed(configs, r[j].name, r[j].provider)
  {
    var st := RosterState(DetectedRoster(FullNames(connected, listing)), []);
    MergeKeepsFirst(st, configs, i);
    MergeKeepsFirst(st, configs, j);
    MergeOrder(st, configs, i, j);
  }
}
