/**
  The navigation highlighter: on every scroll it picks the last page section
  whose top has been scrolled past (with a 140-pixel look-ahead) and marks the
  matching navigation link, and only that one, as active.
*/
module Nav {
  import opened Wrappers

  /** How far below the top of the viewport a section may start and still count as reached. */
  const LOOK_AHEAD: int := 140

  /** Anchor used when the chosen section has no id. */
  const DEFAULT_ANCHOR: string := "home"

  /** A page section in document order: its element id and its offset from the top of the page. */
  datatype Section = Section(id: string, offsetTop: int)

  /** The section's top is at or above the look-ahead line. */
  predicate Reached(s: Section, scrollY: real)
  {
    s.offsetTop as real <= scrollY + LOOK_AHEAD as real
  }

  /**
    Reference definition of the backward search over sections[0..k]: the
    highest index in 1..k whose section is reached, or 0 when none is; index 0
    itself is never examined.
  */
  function LastReached(sections: seq<Section>, scrollY: real, k: nat): (i: nat)
    requires k < |sections|
    ensures i <= k
    ensures 0 < i ==> Reached(sections[i], scrollY)
    ensures forall j :: i < j <= k ==> !Reached(sections[j], scrollY)
  {
    if k == 0 || Reached(sections[k], scrollY) then k
    else LastReached(sections, scrollY, k - 1)
  }

  /**
    The scan loop of the highlighter: start one past the end, pre-decrement,
    and stop at 0 or at the first section (from the bottom) that is reached.
    With no sections the first read is out of range and the host raises an
    error; that is the `None` result.
  */
  method SelectActiveSection(sections: seq<Section>, scrollY: real) returns (r: Option<nat>)
    ensures r.None? <==> |sections| == 0
    ensures r.Some? ==> r.value < |sections|
    ensures r.Some? && 0 < r.value ==> Reached(sections[r.value], scrollY)
    ensures r.Some? ==> forall j :: r.value < j < |sections| ==> !Reached(sections[j], scrollY)
    ensures r.Some? ==> r.value == LastReached(sections, scrollY, |sections| - 1)
  {
    if |sections| == 0 {
      return None;
    }
    var i := |sections| - 1;
    while i != 0 && scrollY + LOOK_AHEAD as real < sections[i].offsetTop as real
      invariant 0 <= i < |sections|
      invariant LastReached(sections, scrollY, i) == LastReached(sections, scrollY, |sections| - 1)
      decreases i
    {
      i := i - 1;
    }
    return Some(i);
  }

  /** The anchor a section is linked by: its id, or "home" when the id is empty. */
  function Anchor(s: Section): (a: string)
    ensures a != ""
    ensures s.id != "" ==> a == s.id
    ensures s.id == "" ==> a == DEFAULT_ANCHOR
  {
    if s.id != "" then s.id else DEFAULT_ANCHOR
  }

  /** The first link in document order whose href is exactly `target` (a selector lookup). */
  function FirstLink(hrefs: seq<string>, target: string): (r: Option<nat>)
    ensures r.Some? ==> r.value < |hrefs| && hrefs[r.value] == target
    ensures r.Some? ==> forall j :: 0 <= j < r.value ==> hrefs[j] != target
    ensures r.None? ==> forall j :: 0 <= j < |hrefs| ==> hrefs[j] != target
  {
    if |hrefs| == 0 then None
    else if hrefs[0] == target then Some(0)
    else match FirstLink(hrefs[1..], target)
      case None => None
      case Some(k) => Some(k + 1)
  }

  /** The sections of the page, the navigation links' hrefs, and each link's `active` flag. */
  class NavBar {
    const sections: seq<Section>
    const hrefs: seq<string>
    const active: array<bool>

    ghost predicate Valid()
      reads this
    {
      active.Length == |hrefs|
    }

    constructor (sections: seq<Section>, hrefs: seq<string>, flags: seq<bool>)
      requires |flags| == |hrefs|
      ensures Valid()
      ensures fresh(active)
      ensures this.sections == sections && this.hrefs == hrefs && active[..] == flags
    {
      this.sections := sections;
      this.hrefs := hrefs;
      active := new bool[|flags|](i requires 0 <= i < |flags| => flags[i]);
    }

    /**
      The scroll handler. With no sections it fails before touching any link.
      Otherwise every link loses `active`, and the first link whose href is
      "#" followed by the chosen section's anchor (if any) gains it.
    */
    method Highlight(scrollY: real) returns (ok: bool)
      requires Valid()
      modifies active
      ensures Valid()
      ensures ok <==> |sections| > 0
      ensures !ok ==> active[..] == old(active[..])
      ensures ok ==>
        var chosen := sections[LastReached(sections, scrollY, |sections| - 1)];
        forall k :: 0 <= k < active.Length ==>
          (active[k] <==> FirstLink(hrefs, "#" + Anchor(chosen)) == Some(k))
    {
      var index := SelectActiveSection(sections, scrollY);
      if index.None? {
        return false;
      }
      for k := 0 to active.Length
        invariant forall j :: 0 <= j < k ==> !active[j]
      {
        active[k] := false;
      }
      var link := FirstLink(hrefs, "#" + Anchor(sections[index.value]));
      if link.Some? {
        active[link.value] := true;
      }
      return true;
    }
  }

  /**
    After a successful highlight at most one link is active, and every link
    other than the first one pointing at the chosen section is inactive.
  */
  lemma AtMostOneActive(flags: seq<bool>, hrefs: seq<string>, target: string)
    requires |flags| == |hrefs|
    requires forall k :: 0 <= k < |flags| ==> (flags[k] <==> FirstLink(hrefs, target) == Some(k))
    ensures forall j, k :: 0 <= j < k < |flags| ==> !(flags[j] && flags[k])
    ensures forall k :: 0 <= k < |flags| && flags[k] ==> hrefs[k] == target
    ensures forall k :: 0 <= k < |flags| && hrefs[k] == target && (exists j :: 0 <= j < k && hrefs[j] == target) ==> !flags[k]
  {
  }
}
