/** The configuration (basalt/src/config.rs): per-pane sections that bind the text of a key to an
    action, the merge that lets later sources override earlier ones, and the layering of `load`:
    the built-in configuration, then the user's, then the fixed Ctrl+C binding.

    Reading files and parsing TOML are not part of this model: `load` receives the outcome of
    each, as a `Result`. */
module Config {
  import opened Wrappers
  import opened ConfigErrors
  import KB = KeyBinding

  type Bindings = map<string, KB.Action>

  // ---- The specification of merging ----

  /** One binding map laid over another: every key of `top` takes `top`'s action, the rest keep
      theirs. */
  function Overlay(base: Bindings, top: Bindings): (r: Bindings)
    ensures r.Keys == base.Keys + top.Keys
    ensures forall k :: k in top ==> r[k] == top[k]
    ensures forall k :: k in base && k !in top ==> r[k] == base[k]
  {
    base + top
  }

  /** Overlaying the same map twice is overlaying it once. */
  lemma OverlayIdempotent(base: Bindings, top: Bindings)
    ensures Overlay(Overlay(base, top), top) == Overlay(base, top)
  {
  }

  /** Overlaying nothing changes nothing; overlaying onto nothing gives the top map. */
  lemma OverlayEmpty(m: Bindings)
    ensures Overlay(m, map[]) == m && Overlay(map[], m) == m
  {
  }

  /** Two overlays in a row are one overlay of the later onto the earlier. */
  lemma OverlayAssociative(a: Bindings, b: Bindings, c: Bindings)
    ensures Overlay(Overlay(a, b), c) == Overlay(a, Overlay(b, c))
  {
  }

  /** The keys of `m` that are in `keys`. */
  function Restrict(m: Bindings, keys: set<string>): (r: Bindings)
    ensures r.Keys == m.Keys * keys
    ensures forall k :: k in r ==> r[k] == m[k]
  {
    map k | k in m.Keys * keys :: m[k]
  }

  // ---- Sections ----

  /** `ConfigSection`: the bindings of one pane. */
  class ConfigSection {
    var keyBindings: Bindings

    /** `From<BTreeMap<String, Message>>`. */
    constructor (bindings: Bindings)
      ensures keyBindings == bindings
    {
      keyBindings := bindings;
    }

    /** `merge_key_bindings`: insert every binding of `other`, one key at a time. */
    method MergeKeyBindings(other: Bindings)
      modifies this
      ensures keyBindings == Overlay(old(keyBindings), other)
    {
      var keys := other.Keys;
      ghost var done: set<string> := {};
      while keys != {}
        invariant keys + done == other.Keys && keys !! done
        invariant keyBindings == Overlay(old(keyBindings), Restrict(other, done))
        decreases keys
      {
        var k :| k in keys;
        keyBindings := keyBindings[k := other[k]];
        keys := keys - {k};
        done := done + {k};
      }
      assert Restrict(other, done) == other;
    }

    /** `key_to_message`: the action bound to the key's text, if any. */
    function KeyToMessage(key: KB.Key): (r: Option<KB.Action>)
      reads this
      ensures r.Some? <==> KB.Display(key) in keyBindings
      ensures r.Some? ==> r.value == keyBindings[KB.Display(key)]
    {
      var text := KB.Display(key);
      if text in keyBindings then Some(keyBindings[text]) else None
    }
  }

  /** The bindings a TOML section lists, keyed by the text of each key; a key listed twice keeps
      its last binding, as collecting into a map does. */
  function FromBindings(bs: seq<KB.KeyBinding>): (r: Bindings)
    ensures forall i :: 0 <= i < |bs| ==> KB.Display(bs[i].key) in r
    ensures forall k :: k in r ==> exists i :: 0 <= i < |bs| && KB.Display(bs[i].key) == k
  {
    if bs == [] then map[]
    else
      var last := bs[|bs| - 1];
      var init := FromBindings(bs[..|bs| - 1]);
      assert forall i :: 0 <= i < |bs| - 1 ==> bs[..|bs| - 1][i] == bs[i];
      init[KB.Display(last.key) := KB.ToAction(last.command)]
  }

  /** A key takes the command of the last binding that names it. */
  lemma {:induction false} FromBindingsLastWins(bs: seq<KB.KeyBinding>, i: nat)
    requires i < |bs|
    requires forall j :: i < j < |bs| ==> KB.Display(bs[j].key) != KB.Display(bs[i].key)
    ensures FromBindings(bs)[KB.Display(bs[i].key)] == KB.ToAction(bs[i].command)
  {
    if i < |bs| - 1 {
      var init := bs[..|bs| - 1];
      assert init[i] == bs[i];
      assert forall j :: i < j < |init| ==> init[j] == bs[j];
      FromBindingsLastWins(init, i);
    }
  }

  // ---- The whole configuration ----

  /** The contents of a configuration: the editor flag and the bindings of the six sections. */
  datatype Settings = Settings(
    experimentalEditor: bool,
    global: Bindings,
    splash: Bindings,
    explorer: Bindings,
    helpModal: Bindings,
    noteEditor: Bindings,
    vaultSelectorModal: Bindings)
  {
    /** What `Config::merge` makes of these settings: the other flag, and each section overlaid
        with its namesake. */
    function MergedWith(other: Settings): (r: Settings)
      ensures r.experimentalEditor == other.experimentalEditor
      ensures r.global == Overlay(global, other.global) && r.splash == Overlay(splash, other.splash)
      ensures r.explorer == Overlay(explorer, other.explorer) && r.helpModal == Overlay(helpModal, other.helpModal)
      ensures r.noteEditor == Overlay(noteEditor, other.noteEditor)
      ensures r.vaultSelectorModal == Overlay(vaultSelectorModal, other.vaultSelectorModal)
    {
      Settings(other.experimentalEditor,
        Overlay(global, other.global), Overlay(splash, other.splash), Overlay(explorer, other.explorer),
        Overlay(helpModal, other.helpModal), Overlay(noteEditor, other.noteEditor),
        Overlay(vaultSelectorModal, other.vaultSelectorModal))
    }
  }

  /** Merging the same settings twice is merging them once. */
  lemma MergeIdempotent(s: Settings, other: Settings)
    ensures s.MergedWith(other).MergedWith(other) == s.MergedWith(other)
  {
    OverlayIdempotent(s.global, other.global);
    OverlayIdempotent(s.splash, other.splash);
    OverlayIdempotent(s.explorer, other.explorer);
    OverlayIdempotent(s.helpModal, other.helpModal);
    OverlayIdempotent(s.noteEditor, other.noteEditor);
    OverlayIdempotent(s.vaultSelectorModal, other.vaultSelectorModal);
  }

  /** `TomlConfig`, as deserialised: the flag and each section's list of bindings. */
  datatype TomlConfig = TomlConfig(
    experimentalEditor: bool,
    global: seq<KB.KeyBinding>,
    splash: seq<KB.KeyBinding>,
    explorer: seq<KB.KeyBinding>,
    helpModal: seq<KB.KeyBinding>,
    noteEditor: seq<KB.KeyBinding>,
    vaultSelectorModal: seq<KB.KeyBinding>)

  /** `From<TomlConfig> for Config`: the flag unchanged, each section converted. */
  function FromToml(t: TomlConfig): (r: Settings)
    ensures r.experimentalEditor == t.experimentalEditor
    ensures r.global == FromBindings(t.global) && r.splash == FromBindings(t.splash)
    ensures r.explorer == FromBindings(t.explorer) && r.helpModal == FromBindings(t.helpModal)
    ensures r.noteEditor == FromBindings(t.noteEditor)
    ensures r.vaultSelectorModal == FromBindings(t.vaultSelectorModal)
  {
    Settings(t.experimentalEditor, FromBindings(t.global), FromBindings(t.splash), FromBindings(t.explorer),
      FromBindings(t.helpModal), FromBindings(t.noteEditor), FromBindings(t.vaultSelectorModal))
  }

  /** `Config::default()`: the conversion of an empty TOML configuration. */
  const DefaultSettings: Settings := FromToml(TomlConfig(false, [], [], [], [], [], []))

  /** `Config`: the editor flag and six sections, each its own object. */
  class Config {
    var experimentalEditor: bool
    const global: ConfigSection
    const splash: ConfigSection
    const explorer: ConfigSection
    const helpModal: ConfigSection
    const noteEditor: ConfigSection
    const vaultSelectorModal: ConfigSection

    /** The sections are six distinct objects. */
    ghost predicate Valid()
      reads this
    {
      global != splash && global != explorer && global != helpModal && global != noteEditor
      && global != vaultSelectorModal && splash != explorer && splash != helpModal
      && splash != noteEditor && splash != vaultSelectorModal && explorer != helpModal
      && explorer != noteEditor && explorer != vaultSelectorModal && helpModal != noteEditor
      && helpModal != vaultSelectorModal && noteEditor != vaultSelectorModal
    }

    ghost function Sections(): set<object>
      reads this
    {
      {global, splash, explorer, helpModal, noteEditor, vaultSelectorModal}
    }

    /** What the configuration holds. */
    function Contents(): (r: Settings)
      reads this, Sections()
      ensures r.experimentalEditor == experimentalEditor && r.global == global.keyBindings
    {
      Settings(experimentalEditor, global.keyBindings, splash.keyBindings, explorer.keyBindings,
        helpModal.keyBindings, noteEditor.keyBindings, vaultSelectorModal.keyBindings)
    }

    constructor (s: Settings)
      ensures Valid() && fresh(Sections())
      ensures Contents() == s
    {
      experimentalEditor := s.experimentalEditor;
      global := new ConfigSection(s.global);
      splash := new ConfigSection(s.splash);
      explorer := new ConfigSection(s.explorer);
      helpModal := new ConfigSection(s.helpModal);
      noteEditor := new ConfigSection(s.noteEditor);
      vaultSelectorModal := new ConfigSection(s.vaultSelectorModal);
    }

    /** `Config::merge`: take the other flag, merge every section with its namesake, and return
        a copy of the result. */
    method Merge(other: Settings) returns (r: Settings)
      requires Valid()
      modifies this, Sections()
      ensures Valid()
      ensures Contents() == old(Contents()).MergedWith(other)
      ensures r == Contents()
    {
      experimentalEditor := other.experimentalEditor;
      global.MergeKeyBindings(other.global);
      explorer.MergeKeyBindings(other.explorer);
      splash.MergeKeyBindings(other.splash);
      noteEditor.MergeKeyBindings(other.noteEditor);
      helpModal.MergeKeyBindings(other.helpModal);
      vaultSelectorModal.MergeKeyBindings(other.vaultSelectorModal);
      r := Contents();
    }
  }

  // ---- Loading ----

  /** The text the Ctrl+C key is stored under. */
  function CtrlCText(): (r: string)
    ensures r == "c+control"
  {
    KB.CtrlCDisplay();
    KB.Display(KB.CtrlC)
  }

  /** The settings of `load`, by layer: the built-in ones, under the user's when they could be
      read, under the fixed Ctrl+C binding. */
  function Layered(base: Settings, user: Result<Settings, ConfigError>): (r: Settings)
  {
    var merged := if user.Ok? then base.MergedWith(user.value) else base;
    merged.(global := Overlay(merged.global, map[CtrlCText() := KB.Quit]))
  }

  /** `load`: a built-in configuration that does not parse is an error; a user configuration that
      cannot be read or parsed is skipped. */
  method Load(base: Result<Settings, ConfigError>, user: Result<Settings, ConfigError>)
    returns (r: Result<Settings, ConfigError>)
    ensures base.Err? ==> r == Err(base.error)
    ensures base.Ok? ==> r == Ok(Layered(base.value, user))
  {
    if base.Err? {
      return Err(base.error);
    }
    var config := new Config(base.value);
    if user.Ok? {
      var _ := config.Merge(user.value);
    }
    var overrides: Bindings := map[CtrlCText() := KB.Quit];
    config.global.MergeKeyBindings(overrides);
    r := Ok(config.Contents());
  }

  /** Ctrl+C always quits: the fixed binding is laid over both the built-in and the user's
      configuration. */
  lemma LoadCtrlCQuits(base: Settings, user: Result<Settings, ConfigError>)
    ensures Layered(base, user).global[KB.Display(KB.CtrlC)] == KB.Quit
  {
  }

  /** Below Ctrl+C, the user's configuration wins over the built-in one, section by section, and
      no key of either is lost. */
  lemma LoadPrecedence(base: Settings, user: Settings, k: string)
    requires k != KB.Display(KB.CtrlC)
    ensures k in Layered(base, Ok(user)).global <==> k in base.global || k in user.global
    ensures k in user.global ==> Layered(base, Ok(user)).global[k] == user.global[k]
    ensures k in base.global && k !in user.global ==> Layered(base, Ok(user)).global[k] == base.global[k]
    ensures Layered(base, Ok(user)).explorer == Overlay(base.explorer, user.explorer)
    ensures Layered(base, Ok(user)).experimentalEditor == user.experimentalEditor
  {
  }

  /** Without a user configuration, the built-in one is kept apart from Ctrl+C. */
  lemma LoadWithoutUser(base: Settings, e: ConfigError)
    ensures Layered(base, Err(e)) == base.(global := Overlay(base.global, map[KB.Display(KB.CtrlC) := KB.Quit]))
  {
  }
}
