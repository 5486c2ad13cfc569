/**
 * The workbench's configuration migrations: for each old setting, a rule
 * from the setting's current value to a list of edits (a key and a new
 * value, where an undefined value removes the key). A migration step reads
 * the rule's key from the settings and applies its edits in order.
 */
module ConfigMigration {
  /** The values a setting can hold, as far as the rules look at them. */
  datatype Value = Undefined | Null | Bool(b: bool) | Str(s: string) | Num(n: int)

  datatype Edit = Edit(key: string, value: Value)

  /** `{ value: undefined }`: remove the key. */
  function Unset(key: string): Edit {
    Edit(key, Undefined)
  }

  const ActivityBarVisible := "workbench.activityBar.visible"
  const ActivityBarLocation := "workbench.activityBar.location"
  const DoubleClickToggle := "workbench.editor.doubleClickTabToToggleEditorGroupSizes"
  const EditorTabsMode := "workbench.editor.showTabs"
  const TabCloseButton := "workbench.editor.tabCloseButton"
  const TabActionLocation := "workbench.editor.tabActionLocation"
  const TabActionCloseVisibility := "workbench.editor.tabActionCloseVisibility"
  const ZenHideTabs := "zenMode.hideTabs"
  const ZenShowTabs := "zenMode.showTabs"

  // ---------------------------------------------------------------------
  // The rules
  // ---------------------------------------------------------------------

  /** activityBar.visible: any defined value is unset; `false` also hides the activity bar. */
  function MigrateActivityBarVisible(v: Value): (r: seq<Edit>)
    ensures r == [] <==> v == Undefined
    ensures v != Undefined ==> r[0] == Unset(ActivityBarVisible)
    ensures |r| == 2 <==> v == Bool(false)
    ensures v == Bool(false) ==> r[1] == Edit(ActivityBarLocation, Str("hidden"))
  {
    (if v != Undefined then [Unset(ActivityBarVisible)] else [])
    + (if v == Bool(false) then [Edit(ActivityBarLocation, Str("hidden"))] else [])
  }

  /** activityBar.location: `side` becomes `default`; nothing else changes. */
  function MigrateActivityBarLocation(v: Value): (r: seq<Edit>)
    ensures r != [] <==> v == Str("side")
    ensures r != [] ==> r == [Edit(ActivityBarLocation, Str("default"))]
  {
    if v == Str("side") then [Edit(ActivityBarLocation, Str("default"))] else []
  }

  /** doubleClickTabToToggleEditorGroupSizes: a boolean becomes `expand` or `off`. */
  function MigrateDoubleClickToggle(v: Value): (r: seq<Edit>)
    ensures r != [] <==> v.Bool?
    ensures v == Bool(true) ==> r == [Edit(DoubleClickToggle, Str("expand"))]
    ensures v == Bool(false) ==> r == [Edit(DoubleClickToggle, Str("off"))]
  {
    if v.Bool? then [Edit(DoubleClickToggle, Str(if v.b then "expand" else "off"))] else []
  }

  /** The editor tabs mode: a boolean becomes `multiple` or `single`. */
  function MigrateEditorTabsMode(v: Value): (r: seq<Edit>)
    ensures r != [] <==> v.Bool?
    ensures v == Bool(true) ==> r == [Edit(EditorTabsMode, Str("multiple"))]
    ensures v == Bool(false) ==> r == [Edit(EditorTabsMode, Str("single"))]
  {
    if v.Bool? then [Edit(EditorTabsMode, Str(if v.b then "multiple" else "single"))] else []
  }

  /** tabCloseButton: `left`/`right` move to the action location, `off` hides the close action. */
  function MigrateTabCloseButton(v: Value): (r: seq<Edit>)
    ensures r != [] <==> v in {Str("left"), Str("right"), Str("off")}
    ensures v == Str("left") || v == Str("right") ==> r == [Edit(TabActionLocation, v)]
    ensures v == Str("off") ==> r == [Edit(TabActionCloseVisibility, Bool(false))]
    ensures forall k :: 0 <= k < |r| ==> r[k].key != TabCloseButton
  {
    if v == Str("left") || v == Str("right") then [Edit(TabActionLocation, v)]
    else if v == Str("off") then [Edit(TabActionCloseVisibility, Bool(false))]
    else []
  }

  /** zenMode.hideTabs: always unset; `true` also shows a single tab. */
  function MigrateZenHideTabs(v: Value): (r: seq<Edit>)
    ensures |r| >= 1 && r[0] == Unset(ZenHideTabs)
    ensures |r| == 2 <==> v == Bool(true)
    ensures v == Bool(true) ==> r[1] == Edit(ZenShowTabs, Str("single"))
  {
    [Unset(ZenHideTabs)] + (if v == Bool(true) then [Edit(ZenShowTabs, Str("single"))] else [])
  }

  /** The registered migrations, in registration order. */
  datatype Rule = VisibleRule | LocationRule | DoubleClickRule | TabsModeRule | CloseButtonRule | ZenRule

  const Rules: seq<Rule> := [VisibleRule, LocationRule, DoubleClickRule, TabsModeRule, CloseButtonRule, ZenRule]

  /** The setting a rule is registered for. */
  function RuleKey(rule: Rule): string {
    match rule
    case VisibleRule => ActivityBarVisible
    case LocationRule => ActivityBarLocation
    case DoubleClickRule => DoubleClickToggle
    case TabsModeRule => EditorTabsMode
    case CloseButtonRule => TabCloseButton
    case ZenRule => ZenHideTabs
  }

  function Migrate(rule: Rule, v: Value): seq<Edit> {
    match rule
    case VisibleRule => MigrateActivityBarVisible(v)
    case LocationRule => MigrateActivityBarLocation(v)
    case DoubleClickRule => MigrateDoubleClickToggle(v)
    case TabsModeRule => MigrateEditorTabsMode(v)
    case CloseButtonRule => MigrateTabCloseButton(v)
    case ZenRule => MigrateZenHideTabs(v)
  }

  /** Every rule has its own key. */
  lemma RuleKeysDistinct(i: nat, j: nat)
    requires i < j < |Rules|
    ensures RuleKey(Rules[i]) != RuleKey(Rules[j])
  {
  }

  // ---------------------------------------------------------------------
  // Applying a migration to the settings
  // ---------------------------------------------------------------------

  /** Stored settings; an absent key reads as undefined. */
  type Settings = map<string, Value>

  function Get(s: Settings, key: string): (v: Value)
    ensures key !in s ==> v == Undefined
  {
    if key in s then s[key] else Undefined
  }

  /** The edits one after another; an undefined value removes its key. */
  function Apply(s: Settings, edits: seq<Edit>): (r: Settings)
    decreases |edits|
  {
    if edits == [] then s
    else
      var e := edits[0];
      Apply(if e.value == Undefined then s - {e.key} else s[e.key := e.value], edits[1..])
  }

  /** The value `key` holds after `edits` when it held `v` before: the last edit of `key` wins. */
  function LastWrite(edits: seq<Edit>, key: string, v: Value): Value
    decreases |edits|
  {
    if edits == [] then v
    else LastWrite(edits[1..], key, if edits[0].key == key then edits[0].value else v)
  }

  /** Reading a key after the edits gives its last write, or its old value when none touched it. */
  lemma {:induction false} ApplyGet(s: Settings, edits: seq<Edit>, key: string)
    ensures Get(Apply(s, edits), key) == LastWrite(edits, key, Get(s, key))
    decreases |edits|
  {
    if edits != [] {
      var e := edits[0];
      var s' := if e.value == Undefined then s - {e.key} else s[e.key := e.value];
      assert Get(s', key) == if e.key == key then e.value else Get(s, key);
      ApplyGet(s', edits[1..], key);
    }
  }

  lemma {:induction false} LastWriteUntouched(edits: seq<Edit>, key: string, v: Value)
    requires forall k :: 0 <= k < |edits| ==> edits[k].key != key
    ensures LastWrite(edits, key, v) == v
    decreases |edits|
  {
    if edits != [] {
      LastWriteUntouched(edits[1..], key, v);
    }
  }

  /** Edits that leave a key alone do not bring back a key that is absent. */
  lemma {:induction false} ApplyKeepsAbsent(s: Settings, edits: seq<Edit>, key: string)
    requires key !in s
    requires forall k :: 0 <= k < |edits| ==> edits[k].key != key
    ensures key !in Apply(s, edits)
    decreases |edits|
  {
    if edits != [] {
      var e := edits[0];
      var s' := if e.value == Undefined then s - {e.key} else s[e.key := e.value];
      ApplyKeepsAbsent(s', edits[1..], key);
    }
  }

  /** One migration: read the rule's key and apply the rule's edits. */
  function Step(s: Settings, rule: Rule): Settings {
    Apply(s, Migrate(rule, Get(s, RuleKey(rule))))
  }

  /**
   * Every migration settles after one step: running it again on the
   * migrated settings changes nothing, because the values it writes are
   * ones it leaves alone.
   */
  lemma StepIdempotent(s: Settings, rule: Rule)
    ensures Step(Step(s, rule), rule) == Step(s, rule)
  {
    var v := Get(s, RuleKey(rule));
    var edits := Migrate(rule, v);
    var s1 := Apply(s, edits);
    ApplyGet(s, edits, RuleKey(rule));
    var v1 := Get(s1, RuleKey(rule));
    var edits1 := Migrate(rule, v1);
    match rule
    case VisibleRule =>
      if v != Undefined {
        LastWriteUntouched(edits[1..], ActivityBarVisible, Undefined);
      }
      assert v1 == Undefined;
      assert edits1 == [];
    case LocationRule =>
      assert v1 != Str("side");
      assert edits1 == [];
    case DoubleClickRule =>
      assert !v1.Bool?;
      assert edits1 == [];
    case TabsModeRule =>
      assert !v1.Bool?;
      assert edits1 == [];
    case CloseButtonRule =>
      assert v1 == v;
      SameEditsTwice(s, edits);
    case ZenRule =>
      LastWriteUntouched(edits[1..], ZenHideTabs, Undefined);
      assert v1 == Undefined;
      assert edits1 == [Unset(ZenHideTabs)];
      assert ZenHideTabs !in s1 by {
        assert edits[0] == Unset(ZenHideTabs);
        ApplyKeepsAbsent(s - {ZenHideTabs}, edits[1..], ZenHideTabs);
      }
      assert Apply(s1, edits1) == s1 - {ZenHideTabs};
      assert s1 - {ZenHideTabs} == s1;
  }

  /** Applying the same edits twice is applying them once, when each edit's key is written only by it. */
  lemma SameEditsTwice(s: Settings, edits: seq<Edit>)
    requires |edits| <= 1
    ensures Apply(Apply(s, edits), edits) == Apply(s, edits)
  {
    if |edits| == 1 {
      assert edits[1..] == [];
    }
  }

  /** The keys a rule may write. */
  function Targets(rule: Rule): set<string> {
    match rule
    case VisibleRule => {ActivityBarVisible, ActivityBarLocation}
    case LocationRule => {ActivityBarLocation}
    case DoubleClickRule => {DoubleClickToggle}
    case TabsModeRule => {EditorTabsMode}
    case CloseButtonRule => {TabActionLocation, TabActionCloseVisibility}
    case ZenRule => {ZenHideTabs, ZenShowTabs}
  }

  /** A migration leaves every setting outside its targets as it was. */
  lemma StepKeepsOthers(s: Settings, rule: Rule, key: string)
    requires key !in Targets(rule)
    ensures Get(Step(s, rule), key) == Get(s, key)
  {
    var edits := Migrate(rule, Get(s, RuleKey(rule)));
    assert forall k :: 0 <= k < |edits| ==> edits[k].key in Targets(rule);
    ApplyGet(s, edits, key);
    LastWriteUntouched(edits, key, Get(s, key));
  }

  /** A hidden activity bar (`visible: false`) ends up as location `hidden`, and the old key is gone. */
  lemma HiddenActivityBarMoves(s: Settings)
    requires Get(s, ActivityBarVisible) == Bool(false)
    ensures Get(Step(s, VisibleRule), ActivityBarLocation) == Str("hidden")
    ensures Get(Step(s, VisibleRule), ActivityBarVisible) == Undefined
  {
    var edits := Migrate(VisibleRule, Bool(false));
    ApplyGet(s, edits, ActivityBarLocation);
    ApplyGet(s, edits, ActivityBarVisible);
  }

  /** `zenMode.hideTabs: true` ends up as `zenMode.showTabs: single`, and the old key is gone. */
  lemma ZenHiddenTabsMove(s: Settings)
    requires Get(s, ZenHideTabs) == Bool(true)
    ensures Get(Step(s, ZenRule), ZenShowTabs) == Str("single")
    ensures Get(Step(s, ZenRule), ZenHideTabs) == Undefined
  {
    var edits := Migrate(ZenRule, Bool(true));
    ApplyGet(s, edits, ZenShowTabs);
    ApplyGet(s, edits, ZenHideTabs);
  }
}
