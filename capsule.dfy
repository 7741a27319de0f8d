// The album switcher in the header: a capsule showing the previewed alias,
// a wheel gesture that steps through the aliases and loads the new one after
// a debounce, and a dropdown with a case-insensitive search. The debounce
// timer is an explicit event (`DebounceFired`), and every call of the
// parent's onAliasChange is recorded in `loads`.

module Capsule {
  import opened Wrappers
  import opened Strings

  /** The aliases whose lower-cased name contains the lower-cased query. */
  predicate Matches(name: string, query: string) {
    Contains(ToLower(name), ToLower(query))
  }

  /** filteredAliases, over the alias names. */
  function Filtered(names: seq<string>, query: string): (r: seq<string>)
    ensures |r| <= |names|
    decreases |names|
  {
    if names == [] then []
    else (if Matches(names[0], query) then [names[0]] else []) + Filtered(names[1..], query)
  }

  /** The filter keeps exactly the matching names. */
  lemma {:induction false} FilteredMembers(names: seq<string>, query: string, x: string)
    ensures x in Filtered(names, query) <==> x in names && Matches(x, query)
    decreases |names|
  {
    if names != [] {
      FilteredMembers(names[1..], query, x);
      assert x in names <==> x == names[0] || x in names[1..];
    }
  }

  /** The filter works piecewise, so the kept names stay in list order. */
  lemma {:induction false} FilteredOfConcat(a: seq<string>, b: seq<string>, query: string)
    ensures Filtered(a + b, query) == Filtered(a, query) + Filtered(b, query)
    decreases |a|
  {
    if a == [] {
      assert a + b == b;
    } else {
      var c := a + b;
      assert c[0] == a[0] && c[1..] == a[1..] + b;
      FilteredOfConcat(a[1..], b, query);
      if Matches(a[0], query) {
        assert Filtered(c, query) == [a[0]] + Filtered(c[1..], query);
        assert Filtered(a, query) == [a[0]] + Filtered(a[1..], query);
      } else {
        assert Filtered(c, query) == Filtered(c[1..], query);
        assert Filtered(a, query) == Filtered(a[1..], query);
      }
    }
  }

  /** With an empty query the dropdown lists every alias. */
  lemma {:induction false} EmptyQueryKeepsAll(names: seq<string>)
    ensures Filtered(names, "") == names
    decreases |names|
  {
    if names != [] {
      assert OccursAt(ToLower(names[0]), ToLower(""), 0);
      EmptyQueryKeepsAll(names[1..]);
    }
  }

  /** `findIndex(a => a.name === x)`: the first position of `x`, or -1. */
  function IndexOf(names: seq<string>, x: string): (r: int)
    ensures -1 <= r < |names|
    ensures r == -1 <==> x !in names
    ensures r >= 0 ==> names[r] == x && forall k :: 0 <= k < r ==> names[k] != x
    decreases |names|
  {
    if names == [] then -1
    else if names[0] == x then 0
    else
      var r := IndexOf(names[1..], x);
      if r == -1 then -1 else r + 1
  }

  /** The index the wheel moves to from `i` in a list of `n` aliases. */
  function WheelIndex(i: int, n: int, deltaY: int): (j: int)
    requires 0 <= i < n
    ensures 0 <= j < n
    ensures deltaY > 0 ==> j == i + 1 || (j == i && i == n - 1)
    ensures deltaY < 0 ==> j == i - 1 || (j == i && i == 0)
    ensures j == i <==> deltaY == 0 || (deltaY > 0 && i == n - 1) || (deltaY < 0 && i == 0)
  {
    if deltaY > 0 then (if i + 1 < n - 1 then i + 1 else n - 1)
    else if deltaY < 0 then (if i - 1 > 0 then i - 1 else 0)
    else i
  }

  /** getDirection: 1 when the preview lies after the active alias, else -1. */
  function Direction(names: seq<string>, active: string, preview: string): (d: int)
    ensures d == 1 || d == -1
    ensures d == 1 <==> IndexOf(names, preview) > IndexOf(names, active)
  {
    if IndexOf(names, preview) > IndexOf(names, active) then 1 else -1
  }

  /** Swapping two different listed aliases reverses the direction. */
  lemma DirectionFlips(names: seq<string>, a: string, b: string)
    requires a in names && b in names && a != b
    ensures Direction(names, a, b) == -Direction(names, b, a)
  {
    assert IndexOf(names, a) != IndexOf(names, b) by {
      assert names[IndexOf(names, a)] == a && names[IndexOf(names, b)] == b;
    }
  }

  /** The state of one AlbumCapsule together with its props. */
  class AlbumCapsule {
    var aliases: seq<string>
    var active: string
    var isOpen: bool
    var query: string
    var preview: string
    /** The alias the debounce timer will load when it fires. */
    var pending: Option<string>
    /** The calls of onAliasChange so far, oldest first. */
    var loads: seq<string>

    constructor(aliases: seq<string>, active: string)
      ensures this.aliases == aliases && this.active == active && preview == active
      ensures !isOpen && query == "" && pending == None && loads == []
    {
      this.aliases := aliases;
      this.active := active;
      isOpen := false;
      query := "";
      preview := active;
      pending := None;
      loads := [];
    }

    /** A render with activeAlias `a`. The effect runs only when the prop
        changed, and then the preview follows it; a render with the same
        value leaves the preview where the wheel put it. */
    method ActiveChanged(a: string)
      modifies this
      ensures active == a
      ensures a != old(active) ==> preview == a
      ensures a == old(active) ==> preview == old(preview)
      ensures aliases == old(aliases) && isOpen == old(isOpen) && query == old(query)
      ensures pending == old(pending) && loads == old(loads)
    {
      if a != active {
        active := a;
        preview := a;
      }
    }

    /** A click on the capsule button opens or closes the dropdown. */
    method ToggleOpen()
      modifies this
      ensures isOpen == !old(isOpen)
      ensures aliases == old(aliases) && active == old(active) && query == old(query)
      ensures preview == old(preview) && pending == old(pending) && loads == old(loads)
    {
      isOpen := !isOpen;
    }

    /** Typing in the search box. */
    method SetQuery(q: string)
      modifies this
      ensures query == q
      ensures aliases == old(aliases) && active == old(active) && isOpen == old(isOpen)
      ensures preview == old(preview) && pending == old(pending) && loads == old(loads)
    {
      query := q;
    }

    /** The wheel handler: ignored while the dropdown is open or when the
        preview is not listed; otherwise it steps the preview one alias and
        restarts the debounce with the new alias. */
    method Wheel(deltaY: int)
      modifies this
      ensures aliases == old(aliases) && active == old(active) && isOpen == old(isOpen)
      ensures query == old(query) && loads == old(loads)
      ensures old(isOpen) || old(preview) !in old(aliases) ==>
        preview == old(preview) && pending == old(pending)
      ensures !old(isOpen) && old(preview) in old(aliases) ==>
        var i := IndexOf(old(aliases), old(preview));
        var j := WheelIndex(i, |old(aliases)|, deltaY);
        if j == i then preview == old(preview) && pending == old(pending)
        else preview == aliases[j] && pending == Some(aliases[j])
    {
      if isOpen {
        return;
      }
      var currentIndex := IndexOf(aliases, preview);
      if currentIndex == -1 {
        return;
      }
      var newIndex := currentIndex;
      if deltaY > 0 {
        newIndex := if currentIndex + 1 < |aliases| - 1 then currentIndex + 1 else |aliases| - 1;
      } else if deltaY < 0 {
        newIndex := if currentIndex - 1 > 0 then currentIndex - 1 else 0;
      }
      if newIndex != currentIndex {
        var newAlias := aliases[newIndex];
        preview := newAlias;
        pending := Some(newAlias);
      }
    }

    /** The debounce timer fires and loads the alias it was set for. */
    method DebounceFired()
      requires pending.Some?
      modifies this
      ensures loads == old(loads) + [old(pending.value)]
      ensures pending == None
      ensures aliases == old(aliases) && active == old(active) && isOpen == old(isOpen)
      ensures query == old(query) && preview == old(preview)
    {
      loads := loads + [pending.value];
      pending := None;
    }

    /** handleSelect as written: loads the chosen alias at once, closes the
        dropdown and clears the search, but leaves a debounce started by the
        wheel in place. */
    method SelectAsWritten(name: string)
      modifies this
      ensures preview == name && loads == old(loads) + [name]
      ensures !isOpen && query == ""
      ensures pending == old(pending)
      ensures aliases == old(aliases) && active == old(active)
    {
      preview := name;
      loads := loads + [name];
      isOpen := false;
      query := "";
    }

    /** handleSelect with the pending debounce cancelled, so the chosen alias
        is the last one loaded until the next gesture. */
    method Select(name: string)
      modifies this
      ensures preview == name && loads == old(loads) + [name]
      ensures !isOpen && query == ""
      ensures pending == None
      ensures aliases == old(aliases) && active == old(active)
    {
      preview := name;
      loads := loads + [name];
      isOpen := false;
      query := "";
      pending := None;
    }

    /** A mouse-down outside the capsule closes the dropdown and clears the search. */
    method MouseDownOutside(inside: bool)
      modifies this
      ensures inside ==> isOpen == old(isOpen) && query == old(query)
      ensures !inside ==> !isOpen && query == ""
      ensures aliases == old(aliases) && active == old(active) && preview == old(preview)
      ensures pending == old(pending) && loads == old(loads)
    {
      if !inside {
        isOpen := false;
        query := "";
      }
    }
  }

  /** Wheel to "b", open the dropdown and choose "c" within the debounce
      delay: with handleSelect as written the timer still fires and loads
      "b" after "c", so the page ends on an album the user did not choose. */
  method StaleDebounceAfterSelect() returns (lastLoaded: string, chosen: string)
    ensures lastLoaded == "b" && chosen == "c" && lastLoaded != chosen
  {
    var c := new AlbumCapsule(["a", "b", "c"], "a");
    c.Wheel(1);
    c.ToggleOpen();
    c.SelectAsWritten("c");
    c.ActiveChanged("c");
    c.DebounceFired();
    c.ActiveChanged(c.loads[|c.loads| - 1]);
    lastLoaded, chosen := c.loads[|c.loads| - 1], "c";
  }

  /** The same gesture with the corrected handleSelect: nothing is pending
      after the choice, and the chosen alias is the last one loaded. */
  method SelectionIsFinal() returns (lastLoaded: string, chosen: string, stillPending: bool)
    ensures lastLoaded == chosen == "c" && !stillPending
  {
    var c := new AlbumCapsule(["a", "b", "c"], "a");
    c.Wheel(1);
    c.ToggleOpen();
    c.Select("c");
    c.ActiveChanged("c");
    lastLoaded, chosen, stillPending := c.loads[|c.loads| - 1], "c", c.pending.Some?;
  }
}
