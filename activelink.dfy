/** The scroll listener that highlights the navigation link of the section
    in view. Each section `s` owns the band
    (s.offsetTop - 120, s.offsetTop - 120 + s.offsetHeight]; the listener
    walks the sections in document order and, for every section whose band
    holds the offset, clears `active` on every nav link and sets it on the
    first link whose `href` is `#` followed by the section's id. The last
    matching section therefore wins, and with no match the links keep
    their classes. */
module ActiveLink {
  import opened Options

  const TriggerOffset := 120

  /** A `section[id]` element: its id and its layout box. */
  datatype Section = Section(id: string, offsetTop: int, offsetHeight: int)

  /** A section of zero or negative height never holds the offset. */
  predicate InBand(s: Section, y: real)
    ensures InBand(s, y) ==> s.offsetHeight > 0
  {
    var top := s.offsetTop - TriggerOffset;
    y > top as real && y <= (top + s.offsetHeight) as real
  }

  /** The link the listener looks up for a section: the first nav link, in
      document order, whose href is `#` followed by the section's id. */
  function LinkFor(hrefs: seq<string>, id: string): (r: Option<nat>)
    ensures r.Some? ==> r.value < |hrefs| && hrefs[r.value] == "#" + id
    ensures r.Some? ==> forall j :: 0 <= j < r.value ==> hrefs[j] != "#" + id
    ensures r.None? ==> forall j :: 0 <= j < |hrefs| ==> hrefs[j] != "#" + id
    decreases |hrefs|
  {
    if hrefs == [] then None
    else if hrefs[0] == "#" + id then Some(0)
    else match LinkFor(hrefs[1..], id)
      case None => None
      case Some(k) => Some(k + 1)
  }

  /** Every one of `n` links cleared, then `link` (if any) set. */
  function Highlight(n: nat, link: Option<nat>): (r: seq<bool>)
    ensures |r| == n
    ensures forall i, j :: 0 <= i < j < n ==> !(r[i] && r[j])
    ensures link.Some? && link.value < n ==> r[link.value]
    ensures link.None? ==> forall i :: 0 <= i < n ==> !r[i]
  {
    seq(n, i => link.Some? && link.value == i)
  }

  /** The link states after the listener has visited `sections` in order. */
  function Scan(active: seq<bool>, hrefs: seq<string>, sections: seq<Section>, y: real): (r: seq<bool>)
    ensures |r| == |active|
    ensures r != active ==> exists i :: 0 <= i < |sections| && InBand(sections[i], y)
    decreases |sections|
  {
    if sections == [] then active
    else
      var prev := Scan(active, hrefs, sections[..|sections| - 1], y);
      var s := sections[|sections| - 1];
      if InBand(s, y) then Highlight(|prev|, LinkFor(hrefs, s.id)) else prev
  }

  /** `k` is the last section in document order whose band holds `y`. */
  predicate IsLastMatch(sections: seq<Section>, y: real, k: nat) {
    k < |sections| && InBand(sections[k], y)
      && forall j :: k < j < |sections| ==> !InBand(sections[j], y)
  }

  /** With no section in band, the listener leaves every link as it was. */
  lemma {:induction false} NoMatchKeepsLinks(active: seq<bool>, hrefs: seq<string>, sections: seq<Section>, y: real)
    requires forall j :: 0 <= j < |sections| ==> !InBand(sections[j], y)
    ensures Scan(active, hrefs, sections, y) == active
    decreases |sections|
  {
    if sections != [] {
      NoMatchKeepsLinks(active, hrefs, sections[..|sections| - 1], y);
    }
  }

  /** When some section is in band, the outcome is decided by the last one:
      only its link is active, or none if it has no link. */
  lemma {:induction false} LastMatchWins(active: seq<bool>, hrefs: seq<string>, sections: seq<Section>, y: real, k: nat)
    requires IsLastMatch(sections, y, k)
    ensures Scan(active, hrefs, sections, y) == Highlight(|active|, LinkFor(hrefs, sections[k].id))
    decreases |sections|
  {
    var n := |sections|;
    if k < n - 1 {
      assert !InBand(sections[n - 1], y);
      var prefix := sections[..n - 1];
      assert IsLastMatch(prefix, y, k) by {
        forall j | k < j < |prefix| ensures !InBand(prefix[j], y) {
          assert prefix[j] == sections[j];
        }
      }
      LastMatchWins(active, hrefs, prefix, y, k);
    }
  }

  /** After a match at most one link is active, and it is the first link
      pointing at the last matching section. */
  lemma AtMostOneActive(active: seq<bool>, hrefs: seq<string>, sections: seq<Section>, y: real, k: nat)
    requires |active| == |hrefs|
    requires IsLastMatch(sections, y, k)
    ensures var r := Scan(active, hrefs, sections, y);
      forall i :: 0 <= i < |r| ==> (r[i] <==> LinkFor(hrefs, sections[k].id) == Some(i))
  {
    LastMatchWins(active, hrefs, sections, y, k);
  }

  /** A second scroll event at the same offset changes nothing. */
  lemma ScanIdempotent(active: seq<bool>, hrefs: seq<string>, sections: seq<Section>, y: real)
    ensures Scan(Scan(active, hrefs, sections, y), hrefs, sections, y) == Scan(active, hrefs, sections, y)
  {
    if k :| IsLastMatch(sections, y, k) {
      LastMatchWins(active, hrefs, sections, y, k);
      LastMatchWins(Scan(active, hrefs, sections, y), hrefs, sections, y, k);
    } else {
      forall j | 0 <= j < |sections| ensures !InBand(sections[j], y) {
        if InBand(sections[j], y) {
          LastMatchExists(sections, y, j);
        }
      }
      NoMatchKeepsLinks(active, hrefs, sections, y);
      NoMatchKeepsLinks(Scan(active, hrefs, sections, y), hrefs, sections, y);
    }
  }

  /** If section `j` is in band, some section at or after it is the last
      one in band. */
  lemma {:induction false} LastMatchExists(sections: seq<Section>, y: real, j: nat)
    requires j < |sections| && InBand(sections[j], y)
    ensures exists k :: j <= k && IsLastMatch(sections, y, k)
    decreases |sections| - j
  {
    if forall i :: j < i < |sections| ==> !InBand(sections[i], y) {
      assert IsLastMatch(sections, y, j);
    } else {
      var i :| j < i < |sections| && InBand(sections[i], y);
      LastMatchExists(sections, y, i);
    }
  }

  /** The `.nav-link` elements, in document order, with their `active` class. */
  class NavLinks {
    const hrefs: seq<string>
    var active: seq<bool>

    ghost predicate Valid()
      reads this
    {
      |active| == |hrefs|
    }

    constructor (hrefs: seq<string>, active: seq<bool>)
      requires |active| == |hrefs|
      ensures Valid() && this.hrefs == hrefs && this.active == active
    {
      this.hrefs := hrefs;
      this.active := active;
    }

    /** Removes `active` from every nav link, one at a time. */
    method ClearAll()
      requires Valid()
      modifies this
      ensures Valid() && active == Highlight(|hrefs|, None)
    {
      var j := 0;
      while j < |active|
        invariant Valid() && 0 <= j <= |active|
        invariant forall i :: 0 <= i < j ==> !active[i]
      {
        active := active[j := false];
        j := j + 1;
      }
    }

    /** The scroll listener at offset `scrollY` over the page's sections. */
    method OnScroll(sections: seq<Section>, scrollY: real)
      requires Valid()
      modifies this
      ensures Valid() && active == Scan(old(active), hrefs, sections, scrollY)
    {
      var i := 0;
      while i < |sections|
        invariant Valid() && 0 <= i <= |sections|
        invariant active == Scan(old(active), hrefs, sections[..i], scrollY)
      {
        var section := sections[i];
        var navLink := LinkFor(hrefs, section.id);
        assert sections[..i + 1][..i] == sections[..i];
        if InBand(section, scrollY) {
          ClearAll();
          if navLink.Some? {
            active := active[navLink.value := true];
          }
        }
        i := i + 1;
      }
      assert sections[..|sections|] == sections;
    }
  }
}
