/** `CALayerExt.swift`: turning off a layer's implicit animations by key path. */
module LayerActions {
  import opened Wrappers

  /** A value of a layer's `actions` dictionary: `NSNull()` (no implicit animation) or a
      `CABasicAnimation()`. */
  datatype Action = NoAction | BasicAnimation

  type Actions = map<string, Action>

  /** The key paths both views pass to `disableActions(for:)` (their `basicDisabledKeypathes`). */
  const BasicDisabledKeyPaths: seq<string> :=
    ["position", "frame", "bounds", "zPosition", "anchorPoint", "anchorPointZ", "contentsScale"]

  /** No key path occurs twice. */
  predicate Distinct(keyPaths: seq<string>) {
    forall i, j :: 0 <= i < j < |keyPaths| ==> keyPaths[i] != keyPaths[j]
  }

  /** The set of keys a list names. */
  function KeySet(keyPaths: seq<string>): set<string> {
    set k | k in keyPaths
  }

  /** `disableActions(for:)`: the dictionary `Dictionary(uniqueKeysWithValues:)` builds from
      the pairs `(keyPath, NSNull())`, inserted in order. A repeated key traps: `None`. */
  function DisableActions(keyPaths: seq<string>): (r: Option<Actions>)
    ensures r.Some? <==> Distinct(keyPaths)
    ensures r.Some? ==> r.value.Keys == KeySet(keyPaths)
    ensures r.Some? ==> forall k :: k in r.value ==> r.value[k] == NoAction
  {
    if |keyPaths| == 0 then Some(map[])
    else
      var prefix := keyPaths[..|keyPaths| - 1];
      var last := keyPaths[|keyPaths| - 1];
      match DisableActions(prefix)
      case None => None
      case Some(m) =>
        if last in m then None
        else
          assert Distinct(keyPaths) by {
            forall i, j | 0 <= i < j < |keyPaths| ensures keyPaths[i] != keyPaths[j] {
              if j < |keyPaths| - 1 {
                assert keyPaths[i] == prefix[i] && keyPaths[j] == prefix[j];
              } else {
                assert keyPaths[i] in prefix;
              }
            }
          }
          assert KeySet(keyPaths) == KeySet(prefix) + {last} by {
            assert keyPaths == prefix + [last];
          }
          Some(m[last := NoAction])
  }

  /** One statement of a layer's set-up that writes its `actions`: a `disableActions(for:)`
      call or a plain assignment of a dictionary. */
  datatype ActionStep = Disable(keyPaths: seq<string>) | Assign(actions: Actions)

  /** The layer's `actions` after the steps run in order, starting from `current`; `None` when
      a step traps. Each step replaces the whole dictionary. */
  function RunSteps(current: Actions, steps: seq<ActionStep>): (r: Option<Actions>)
    ensures |steps| == 0 ==> r == Some(current)
    ensures r.Some? && |steps| > 0 && steps[|steps| - 1].Assign? ==> r.value == steps[|steps| - 1].actions
    ensures r.Some? && |steps| > 0 && steps[|steps| - 1].Disable? ==>
      r.value.Keys == KeySet(steps[|steps| - 1].keyPaths)
    ensures r.Some? && |steps| > 0 && steps[|steps| - 1].Disable? ==>
      forall k :: k in r.value ==> r.value[k] == NoAction
    ensures r.Some? <==> forall i :: 0 <= i < |steps| && steps[i].Disable? ==> Distinct(steps[i].keyPaths)
    decreases |steps|
  {
    if |steps| == 0 then Some(current)
    else
      match RunSteps(current, steps[..|steps| - 1])
      case None => None
      case Some(before) =>
        match steps[|steps| - 1]
        case Assign(m) => Some(m)
        case Disable(keyPaths) => DisableActions(keyPaths)
  }

  /** The dotted view's gradient-layer list (the basic list with "contents" added) has no
      repeats, and neither has the basic list it extends. */
  lemma BasicListsDistinct()
    ensures Distinct(BasicDisabledKeyPaths + ["contents"])
    ensures Distinct(BasicDisabledKeyPaths)
  {
    var extended := BasicDisabledKeyPaths + ["contents"];
    forall i, j | 0 <= i < j < |extended| ensures extended[i] != extended[j] {
    }
    assert BasicDisabledKeyPaths == extended[..|extended| - 1];
  }

  /** Both lists the views pass are free of repeats, so neither call traps, and each disables
      exactly the listed keys. */
  lemma BasicListsAccepted()
    ensures DisableActions(BasicDisabledKeyPaths).Some?
    ensures DisableActions(BasicDisabledKeyPaths + ["contents"]).Some?
    ensures "contents" in DisableActions(BasicDisabledKeyPaths + ["contents"]).value
    ensures "position" in DisableActions(BasicDisabledKeyPaths).value
  {
    BasicListsDistinct();
    assert "contents" in KeySet(BasicDisabledKeyPaths + ["contents"]);
    assert "position" in KeySet(BasicDisabledKeyPaths);
  }

  /** The ring layers' set-up disables the basic key paths and then assigns a dictionary of
      two animations: the assignment discards the disabled keys, so "position", "frame" and
      the rest keep their default implicit animations. */
  lemma LaterAssignmentDiscardsDisabledKeys()
    ensures var r := RunSteps(map[], [Disable(BasicDisabledKeyPaths),
                                      Assign(map["lineWidth" := BasicAnimation, "path" := BasicAnimation])]);
      && r.Some?
      && r.value.Keys == {"lineWidth", "path"}
      && "position" !in r.value
  {
    BasicListsAccepted();
  }
}
