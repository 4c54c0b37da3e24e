/**
 * The expand/collapse controller of `assets/js/plugins-list.js`. The page's
 * `.plugin-item` elements are numbered in document order and each one's
 * `expanded` class is a flag: `flags[i]` holds when item `i` is expanded.
 */
module PluginsList {
  import opened Wrappers

  /** What `document.querySelector(hash)` finds: plugin item number `index`, or another element. */
  datatype Element = PluginItem(index: nat) | OtherElement

  /**
   * A click on the header of item `item`; `onLinkOrButton` when the click
   * target sits inside an `<a>` or a `<button>`.
   */
  datatype HeaderClick = HeaderClick(item: nat, onLinkOrButton: bool)

  /** How many items are expanded. */
  function ExpandedCount(flags: seq<bool>): (n: nat)
    ensures n <= |flags|
    ensures n == 0 <==> forall j :: 0 <= j < |flags| ==> !flags[j]
  {
    if flags == [] then 0
    else
      var rest := ExpandedCount(flags[1..]);
      assert forall j :: 1 <= j < |flags| ==> flags[j] == flags[1..][j - 1];
      (if flags[0] then 1 else 0) + rest
  }

  /** No two items are expanded at once. */
  ghost predicate AtMostOneExpanded(flags: seq<bool>)
  {
    forall j, k :: 0 <= j < k < |flags| && flags[j] ==> !flags[k]
  }

  /** "At most one expanded" is "an expanded count of at most one". */
  lemma {:induction false} AtMostOneIffCount(flags: seq<bool>)
    ensures AtMostOneExpanded(flags) <==> ExpandedCount(flags) <= 1
  {
    if flags != [] {
      var rest := flags[1..];
      AtMostOneIffCount(rest);
      assert forall j :: 1 <= j < |flags| ==> flags[j] == rest[j - 1];
      if AtMostOneExpanded(flags) {
        assert AtMostOneExpanded(rest) by {
          forall j, k | 0 <= j < k < |rest| && rest[j] ensures !rest[k] {
            assert flags[j + 1] && j + 1 < k + 1;
          }
        }
        if flags[0] {
          assert forall k :: 0 <= k < |rest| ==> !rest[k] by {
            forall k | 0 <= k < |rest| ensures !rest[k] { assert flags[k + 1] == rest[k]; }
          }
        }
      } else {
        var j, k :| 0 <= j < k < |flags| && flags[j] && flags[k];
        if j == 0 {
          assert rest[k - 1];
        } else {
          assert rest[j - 1] && rest[k - 1];
          assert !AtMostOneExpanded(rest);
        }
      }
    }
  }

  /** When no item other than `i` is expanded, the count is 1 or 0 according to item `i`. */
  lemma {:induction false} CountOnlyAt(flags: seq<bool>, i: nat)
    requires i < |flags|
    requires forall j :: 0 <= j < |flags| && j != i ==> !flags[j]
    ensures ExpandedCount(flags) == if flags[i] then 1 else 0
  {
    if i == 0 {
      assert forall j :: 0 <= j < |flags| - 1 ==> !flags[1..][j] by {
        forall j | 0 <= j < |flags| - 1 ensures !flags[1..][j] { assert flags[1..][j] == flags[j + 1]; }
      }
    } else {
      assert forall j :: 0 <= j < |flags| - 1 && j != i - 1 ==> !flags[1..][j] by {
        forall j | 0 <= j < |flags| - 1 && j != i - 1 ensures !flags[1..][j] {
          assert flags[1..][j] == flags[j + 1];
        }
      }
      CountOnlyAt(flags[1..], i - 1);
    }
  }

  /** Expanding item `k` adds one to the count unless it was expanded already. */
  lemma {:induction false} CountExpandOne(flags: seq<bool>, k: nat)
    requires k < |flags|
    ensures ExpandedCount(flags[k := true]) == ExpandedCount(flags) + (if flags[k] then 0 else 1)
  {
    if k > 0 {
      assert flags[k := true][1..] == flags[1..][k - 1 := true];
      CountExpandOne(flags[1..], k - 1);
    } else {
      assert flags[0 := true][1..] == flags[1..];
    }
  }

  // ----- Header click -----

  /** The `forEach` over all items that the header click runs first: every item other than `i` loses its `expanded` class. */
  function CloseOthers(flags: seq<bool>, i: nat): (r: seq<bool>)
    requires i < |flags|
    ensures |r| == |flags| && r[i] == flags[i]
    ensures forall j :: 0 <= j < |r| && j != i ==> !r[j]
  {
    seq(|flags|, j requires 0 <= j < |flags| => j == i && flags[i])
  }

  /** `classList.toggle('expanded')` on item `i`. */
  function Toggle(flags: seq<bool>, i: nat): (r: seq<bool>)
    requires i < |flags|
    ensures |r| == |flags| && r[i] == !flags[i]
    ensures forall j :: 0 <= j < |r| && j != i ==> r[j] == flags[j]
  {
    flags[i := !flags[i]]
  }

  /**
   * The click handler: nothing happens for a click inside a link or button;
   * otherwise the clicked item flips and every other item is collapsed.
   */
  function AfterClick(flags: seq<bool>, click: HeaderClick): (r: seq<bool>)
    requires click.item < |flags|
    ensures |r| == |flags|
    ensures click.onLinkOrButton ==> r == flags
    ensures !click.onLinkOrButton ==>
      && r[click.item] == !flags[click.item]
      && forall j :: 0 <= j < |r| && j != click.item ==> !r[j]
  {
    if click.onLinkOrButton then flags else Toggle(CloseOthers(flags, click.item), click.item)
  }

  /**
   * After a click outside links and buttons at most one item is expanded,
   * and exactly one, the clicked item, when that item was collapsed before.
   */
  lemma {:induction false} ClickLeavesAtMostOne(flags: seq<bool>, click: HeaderClick)
    requires click.item < |flags| && !click.onLinkOrButton
    ensures var r := AfterClick(flags, click);
      && AtMostOneExpanded(r)
      && (ExpandedCount(r) == 1 <==> !flags[click.item])
      && (ExpandedCount(r) == 1 ==> r[click.item])
  {
    var r := AfterClick(flags, click);
    CountOnlyAt(r, click.item);
    AtMostOneIffCount(r);
  }

  /** Every click, on a link or not, keeps "at most one expanded" once it holds. */
  lemma {:induction false} ClickPreservesAtMostOne(flags: seq<bool>, click: HeaderClick)
    requires click.item < |flags| && AtMostOneExpanded(flags)
    ensures AtMostOneExpanded(AfterClick(flags, click))
  {
  }

  /**
   * Clicking the same header twice restores the page exactly when no other
   * item was expanded before the first click.
   */
  lemma {:induction false} ClickTwiceRestores(flags: seq<bool>, click: HeaderClick)
    requires click.item < |flags| && !click.onLinkOrButton
    ensures AfterClick(AfterClick(flags, click), click) == flags
        <==> forall j :: 0 <= j < |flags| && j != click.item ==> !flags[j]
  {
  }

  predicate ClicksWithin(clicks: seq<HeaderClick>, n: nat)
  {
    forall c :: c in clicks ==> c.item < n
  }

  /** The page after a sequence of header clicks, in order. */
  function AfterClicks(flags: seq<bool>, clicks: seq<HeaderClick>): (r: seq<bool>)
    requires ClicksWithin(clicks, |flags|)
    ensures |r| == |flags|
    decreases |clicks|
  {
    if clicks == [] then flags
    else
      var next := AfterClick(flags, clicks[0]);
      assert ClicksWithin(clicks[1..], |next|) by {
        forall c | c in clicks[1..] ensures c.item < |next| { assert c in clicks; }
      }
      AfterClicks(next, clicks[1..])
  }

  /**
   * Whatever the state after load, once any click outside links and buttons
   * has happened, at most one item is expanded from then on; and a page with
   * at most one expanded item keeps that property under every click.
   */
  lemma {:induction false} ClicksKeepAtMostOne(flags: seq<bool>, clicks: seq<HeaderClick>)
    requires ClicksWithin(clicks, |flags|)
    ensures AtMostOneExpanded(flags) ==> AtMostOneExpanded(AfterClicks(flags, clicks))
    ensures (exists k :: 0 <= k < |clicks| && !clicks[k].onLinkOrButton) ==>
      AtMostOneExpanded(AfterClicks(flags, clicks))
    decreases |clicks|
  {
    if clicks != [] {
      var next := AfterClick(flags, clicks[0]);
      assert ClicksWithin(clicks[1..], |next|) by {
        forall c | c in clicks[1..] ensures c.item < |next| { assert c in clicks; }
      }
      assert AfterClicks(flags, clicks) == AfterClicks(next, clicks[1..]);
      ClicksKeepAtMostOne(next, clicks[1..]);
      if AtMostOneExpanded(flags) {
        ClickPreservesAtMostOne(flags, clicks[0]);
      }
      if exists k :: 0 <= k < |clicks| && !clicks[k].onLinkOrButton {
        var k :| 0 <= k < |clicks| && !clicks[k].onLinkOrButton;
        if k == 0 {
          ClickLeavesAtMostOne(flags, clicks[0]);
        } else {
          assert !clicks[1..][k - 1].onLinkOrButton;
        }
      }
    }
  }

  // ----- Load: default first item and URL hash deep link -----

  /** `pluginItems[0].classList.add('expanded')` when there is an item. */
  function WithFirstExpanded(flags: seq<bool>): (r: seq<bool>)
    ensures |r| == |flags|
    ensures flags == [] ==> r == []
    ensures flags != [] ==> r[0] && r[1..] == flags[1..]
  {
    if |flags| > 0 then flags[0 := true] else flags
  }

  /** Every selector that finds a plugin item finds one of the `n` items. */
  predicate TargetsWithin(targets: map<string, Element>, n: nat)
  {
    forall s :: s in targets && targets[s].PluginItem? ==> targets[s].index < n
  }

  /**
   * The item the URL hash names: none for an empty hash, a hash that finds
   * nothing, or one that finds an element without the `plugin-item` class.
   */
  function HashTarget(hash: string, targets: map<string, Element>): (t: Option<nat>)
    ensures t.Some? <==> hash != "" && hash in targets && targets[hash].PluginItem?
    ensures t.Some? ==> targets[hash] == PluginItem(t.value)
  {
    if hash != "" && hash in targets && targets[hash].PluginItem? then Some(targets[hash].index) else None
  }

  /** `targetPlugin.classList.add('expanded')` for the hash target, if any. */
  function WithTargetExpanded(flags: seq<bool>, target: Option<nat>): (r: seq<bool>)
    requires target.Some? ==> target.value < |flags|
    ensures |r| == |flags|
    ensures forall j :: 0 <= j < |flags| ==> r[j] == (flags[j] || target == Some(j))
  {
    if target.Some? then flags[target.value := true] else flags
  }

  /**
   * The flags after the load-time steps: the first item and the hash target
   * are expanded, and no item is collapsed.
   */
  function AfterLoad(flags: seq<bool>, target: Option<nat>): (r: seq<bool>)
    requires target.Some? ==> target.value < |flags|
    ensures |r| == |flags|
    ensures flags != [] ==> r[0]
    ensures target.Some? ==> r[target.value]
    ensures forall j :: 0 <= j < |flags| && flags[j] ==> r[j]
    ensures forall j :: 0 < j < |flags| && Some(j) != target ==> r[j] == flags[j]
  {
    WithTargetExpanded(WithFirstExpanded(flags), target)
  }

  /** Loading expands at most two items that were collapsed. */
  lemma {:induction false} LoadExpandsAtMostTwo(flags: seq<bool>, target: Option<nat>)
    requires target.Some? ==> target.value < |flags|
    ensures ExpandedCount(AfterLoad(flags, target)) <= ExpandedCount(flags) + 2
  {
    var first := WithFirstExpanded(flags);
    if flags != [] {
      CountExpandOne(flags, 0);
    }
    if target.Some? {
      CountExpandOne(first, target.value);
    }
  }

  /**
   * Before the first click two items can be expanded: on a collapsed page
   * whose hash names item `k > 0`, load expands item 0 and item `k`.
   */
  lemma {:induction false} LoadCanExpandTwo(flags: seq<bool>, k: nat)
    requires 0 < k < |flags| && ExpandedCount(flags) == 0
    ensures ExpandedCount(AfterLoad(flags, Some(k))) == 2
    ensures !AtMostOneExpanded(AfterLoad(flags, Some(k)))
  {
    var first := WithFirstExpanded(flags);
    CountExpandOne(flags, 0);
    assert !first[k];
    CountExpandOne(first, k);
  }

  /** The plugin list of one page: the items' `expanded` flags and what `querySelector` finds. */
  class PluginList {
    const expanded: array<bool>
    const targets: map<string, Element>

    ghost predicate Valid()
    {
      TargetsWithin(targets, expanded.Length)
    }

    /** The items as the markup declares them, before the load handler runs. */
    constructor (initial: seq<bool>, targets: map<string, Element>)
      requires TargetsWithin(targets, |initial|)
      ensures Valid() && fresh(expanded)
      ensures expanded[..] == initial && this.targets == targets
    {
      expanded := new bool[|initial|](j requires 0 <= j < |initial| => initial[j]);
      this.targets := targets;
    }

    /** The click listener on item `click.item`'s header. */
    method Click(click: HeaderClick)
      requires click.item < expanded.Length
      modifies expanded
      ensures expanded[..] == AfterClick(old(expanded[..]), click)
    {
      if click.onLinkOrButton {
        return;
      }
      var i := click.item;
      for j := 0 to expanded.Length
        invariant forall k :: 0 <= k < j && k != i ==> !expanded[k]
        invariant forall k :: 0 <= k < expanded.Length && (j <= k || k == i) ==> expanded[k] == old(expanded[k])
      {
        if j != i && expanded[j] {
          expanded[j] := false;
        }
      }
      expanded[i] := !expanded[i];
    }

    /** Default first item: expand the first item, if there is one. */
    method ExpandFirst()
      modifies expanded
      ensures expanded[..] == WithFirstExpanded(old(expanded[..]))
    {
      if expanded.Length > 0 {
        expanded[0] := true;
      }
    }

    /**
     * Hash deep link: expand the item the URL hash names; the result is the
     * item scrolled into view, if any.
     */
    method OpenHashTarget(hash: string) returns (scrolledTo: Option<nat>)
      requires Valid()
      modifies expanded
      ensures scrolledTo == HashTarget(hash, targets)
      ensures expanded[..] == WithTargetExpanded(old(expanded[..]), scrolledTo)
    {
      scrolledTo := None;
      if hash != "" {
        if hash in targets && targets[hash].PluginItem? {
          var k := targets[hash].index;
          expanded[k] := true;
          scrolledTo := Some(k);
        }
      }
    }

    /** The load-time steps of the `DOMContentLoaded` handler, after the listeners are attached. */
    method Load(hash: string) returns (scrolledTo: Option<nat>)
      requires Valid()
      modifies expanded
      ensures scrolledTo == HashTarget(hash, targets)
      ensures expanded[..] == AfterLoad(old(expanded[..]), scrolledTo)
    {
      ExpandFirst();
      scrolledTo := OpenHashTarget(hash);
    }
  }
}
