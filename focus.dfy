/**
 * Tab-reachability of the nodes inside a group: `setFocusableDisabled` takes
 * every focusable descendant out of the tab order when a clone is made, and
 * `restoreFocusable` puts each back as it was when the clone is disposed.
 *
 * A group's content is the sequence of its descendant nodes in document
 * order; each is a record of what these two functions read and write.
 */
module Focus {
  import opened JsValues

  /** One node: whether it is an element at all (text nodes are not), whether
      its tag is natively focusable (`a`, `button`, `input`, `select`,
      `textarea`), its `tabindex` attribute and its `data-original-tabindex`. */
  datatype Node = Node(isElement: bool, nativeFocusable: bool, tabindex: Option<string>, origTab: Option<string>)

  /** A group `div` on the track: the source group or a clone of it. */
  datatype Group = Group(ariaHidden: bool, nodes: seq<Node>)

  const Unreachable: string := "-1"

  /** Matched by `a, button, input, select, textarea, [tabindex]`. */
  predicate Selected(n: Node) {
    n.isElement && (n.nativeFocusable || n.tabindex.Some?)
  }

  /** At least one element among the nodes (`children.length !== 0`). */
  predicate HasElement(nodes: seq<Node>) {
    exists i :: 0 <= i < |nodes| && nodes[i].isElement
  }

  /** The effect of `setFocusableDisabled` on one node. */
  function Disabled(n: Node): Node {
    if !Selected(n) then n
    else n.(origTab := if n.tabindex.Some? then n.tabindex else n.origTab, tabindex := Some(Unreachable))
  }

  /** The effect of `restoreFocusable` on one node. */
  function Restored(n: Node): Node {
    if !Selected(n) then n
    else if n.origTab.Some? then n.(tabindex := n.origTab, origTab := None)
    else if n.tabindex == Some(Unreachable) then n.(tabindex := None)
    else n
  }

  function DisableAll(nodes: seq<Node>): (r: seq<Node>)
    ensures |r| == |nodes|
  {
    seq(|nodes|, i requires 0 <= i < |nodes| => Disabled(nodes[i]))
  }

  function RestoreAll(nodes: seq<Node>): (r: seq<Node>)
    ensures |r| == |nodes|
  {
    seq(|nodes|, i requires 0 <= i < |nodes| => Restored(nodes[i]))
  }

  /** No focusable node carries a saved tabindex of its own. */
  predicate NoSavedTabindex(nodes: seq<Node>) {
    forall i :: 0 <= i < |nodes| && Selected(nodes[i]) ==> nodes[i].origTab.None?
  }

  /** `setFocusableDisabled(container)`, in place over the group's nodes:
      every focusable node ends with tabindex "-1" and its prior tabindex, if it
      had one, saved; every other node is left alone. */
  method SetFocusableDisabled(nodes: seq<Node>) returns (r: seq<Node>)
    ensures r == DisableAll(nodes)
    ensures forall i :: 0 <= i < |nodes| && Selected(nodes[i]) ==> r[i].tabindex == Some(Unreachable)
    ensures forall i :: 0 <= i < |nodes| && Selected(nodes[i]) && nodes[i].tabindex.Some? ==>
              r[i].origTab == nodes[i].tabindex
    ensures forall i :: 0 <= i < |nodes| && !Selected(nodes[i]) ==> r[i] == nodes[i]
  {
    r := nodes;
    var i := 0;
    while i < |r|
      invariant 0 <= i <= |r| == |nodes|
      invariant forall k :: 0 <= k < i ==> r[k] == Disabled(nodes[k])
      invariant forall k :: i <= k < |r| ==> r[k] == nodes[k]
    {
      var node := r[i];
      if Selected(node) {
        if node.tabindex.Some? {
          node := node.(origTab := node.tabindex);
        }
        node := node.(tabindex := Some(Unreachable));
      }
      r := r[i := node];
      i := i + 1;
    }
  }

  /** `restoreFocusable(container)`, in place over the group's nodes: a
      focusable node with a saved tabindex gets it back and loses the saved
      copy; one without a saved copy loses a tabindex of "-1". */
  method RestoreFocusable(nodes: seq<Node>) returns (r: seq<Node>)
    ensures r == RestoreAll(nodes)
    ensures forall i :: 0 <= i < |nodes| ==> r[i].origTab.None? || !Selected(nodes[i])
    ensures forall i :: 0 <= i < |nodes| && Selected(nodes[i]) && nodes[i].origTab.Some? ==>
              r[i].tabindex == nodes[i].origTab
    ensures forall i :: 0 <= i < |nodes| && !Selected(nodes[i]) ==> r[i] == nodes[i]
  {
    r := nodes;
    var i := 0;
    while i < |r|
      invariant 0 <= i <= |r| == |nodes|
      invariant forall k :: 0 <= k < i ==> r[k] == Restored(nodes[k])
      invariant forall k :: i <= k < |r| ==> r[k] == nodes[k]
    {
      var node := r[i];
      if Selected(node) {
        if node.origTab.Some? {
          node := node.(tabindex := node.origTab, origTab := None);
        } else if node.tabindex == Some(Unreachable) {
          node := node.(tabindex := None);
        }
      }
      r := r[i := node];
      i := i + 1;
    }
  }

  /** `restoreFocusable` runs the same selector as `setFocusableDisabled`:
      on a disabled group it matches exactly the nodes that were disabled. */
  lemma SelectorSeesDisabled(nodes: seq<Node>)
    ensures forall i :: 0 <= i < |nodes| ==> (Selected(DisableAll(nodes)[i]) <==> Selected(nodes[i]))
  {
  }

  /** A disabled copy has an element exactly when the original does, so the
      source group and its clones agree on `children.length !== 0` (a group
      has an element child exactly when it has an element descendant, since
      text nodes have no children). */
  lemma DisableKeepsElements(nodes: seq<Node>)
    ensures HasElement(DisableAll(nodes)) <==> HasElement(nodes)
  {
    if HasElement(nodes) {
      var i :| 0 <= i < |nodes| && nodes[i].isElement;
      assert DisableAll(nodes)[i].isElement;
    }
  }

  /** Restoring a disabled copy gives back the nodes exactly, provided none of
      the focusable ones carried a saved tabindex beforehand. */
  lemma RestoreAfterDisable(nodes: seq<Node>)
    requires NoSavedTabindex(nodes)
    ensures RestoreAll(DisableAll(nodes)) == nodes
  {
    forall i | 0 <= i < |nodes|
      ensures RestoreAll(DisableAll(nodes))[i] == nodes[i]
    {
      assert DisableAll(nodes)[i] == Disabled(nodes[i]);
    }
  }

  /** A node that already carried `data-original-tabindex` but no tabindex is
      not restored to its prior state: it comes back with the saved value. */
  lemma SavedTabindexIsNotRoundTripped()
    ensures var n := Node(true, true, None, Some("3"));
            Restored(Disabled(n)) != n
  {
  }
}
