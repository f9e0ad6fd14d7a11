/**
 * The background colour that follows the scroll position: each section of the
 * page has a faint tint, the section under the middle of the viewport picks
 * the body's background, and scroll events are throttled to one pending
 * animation frame.
 */
module ColorTransitions {

  /** A `.section` element of the page: its id, offsetTop and offsetHeight. */
  datatype Section = Section(id: string, top: real, height: real)

  /** The `sectionColors` table: the tint of each known section. */
  const SectionColors: map<string, string> :=
    map["hero" := "#000000", "story" := "#020308", "work" := "#040206", "contact" := "#030405"]

  /** The section chosen when no known section contains the scroll point. */
  const DefaultSection := "hero"

  /** The scroll point: the middle of the viewport, in page coordinates. */
  function ScrollPosition(scrollY: real, innerHeight: real): real {
    scrollY + innerHeight / 2.0
  }

  /** Half-open containment: the top edge belongs to the section, the bottom edge to the next one. */
  predicate Contains(s: Section, pos: real)
    ensures Contains(s, pos) ==> s.height > 0.0
  {
    s.top <= pos < s.top + s.height
  }

  /** A section that can become the active one: it contains the point and has a colour of its own. */
  predicate Qualifies(s: Section, pos: real) {
    Contains(s, pos) && s.id in SectionColors
  }

  /**
   * The section `updateBackgroundColor` settles on: the pass over the sections
   * in document order overwrites the choice with every qualifying section, so
   * the last one wins; with none, the choice stays at 'hero'.
   */
  function ActiveSection(sections: seq<Section>, pos: real): (r: string)
    ensures r in SectionColors
    ensures r == DefaultSection || exists i :: 0 <= i < |sections| && Qualifies(sections[i], pos) && sections[i].id == r
  {
    if sections == [] then DefaultSection
    else
      var last := sections[|sections| - 1];
      if Qualifies(last, pos) then last.id
      else
        var r := ActiveSection(sections[..|sections| - 1], pos);
        assert r == DefaultSection || exists i :: 0 <= i < |sections| && Qualifies(sections[i], pos) && sections[i].id == r by {
          if r != DefaultSection {
            var i :| 0 <= i < |sections| - 1 && Qualifies(sections[..|sections| - 1][i], pos)
                     && sections[..|sections| - 1][i].id == r;
            assert sections[i] == sections[..|sections| - 1][i];
          }
        }
        r
  }

  /** The last qualifying section in document order is the one chosen, whatever precedes it. */
  lemma {:induction false} LastQualifyingWins(sections: seq<Section>, pos: real, k: int)
    requires 0 <= k < |sections| && Qualifies(sections[k], pos)
    requires forall j :: k < j < |sections| ==> !Qualifies(sections[j], pos)
    ensures ActiveSection(sections, pos) == sections[k].id
    decreases |sections|
  {
    if k < |sections| - 1 {
      var prefix := sections[..|sections| - 1];
      assert prefix[k] == sections[k];
      forall j | k < j < |prefix| ensures !Qualifies(prefix[j], pos) {
        assert prefix[j] == sections[j];
      }
      LastQualifyingWins(prefix, pos, k);
    }
  }

  /** With no qualifying section — none contains the point, or only unknown ids do — the choice is 'hero'. */
  lemma {:induction false} NoneQualifyingIsHero(sections: seq<Section>, pos: real)
    requires forall i :: 0 <= i < |sections| ==> !Qualifies(sections[i], pos)
    ensures ActiveSection(sections, pos) == DefaultSection
    decreases |sections|
  {
    if sections != [] {
      var prefix := sections[..|sections| - 1];
      forall i | 0 <= i < |prefix| ensures !Qualifies(prefix[i], pos) {
        assert prefix[i] == sections[i];
      }
      NoneQualifyingIsHero(prefix, pos);
    }
  }

  /** Appending a section: it is the new choice if it qualifies, otherwise the choice stays. */
  lemma ActiveSectionSnoc(sections: seq<Section>, y: Section, pos: real)
    ensures ActiveSection(sections + [y], pos) == if Qualifies(y, pos) then y.id else ActiveSection(sections, pos)
  {
    var s := sections + [y];
    assert s[..|s| - 1] == sections && s[|s| - 1] == y;
  }

  /** A section whose id has no colour never changes the choice, wherever it stands. */
  lemma {:induction false} UnknownIdsIgnored(before: seq<Section>, x: Section, after: seq<Section>, pos: real)
    requires x.id !in SectionColors
    ensures ActiveSection(before + [x] + after, pos) == ActiveSection(before + after, pos)
    decreases |after|
  {
    if after == [] {
      assert before + [x] + after == before + [x];
      assert before + after == before;
      ActiveSectionSnoc(before, x, pos);
    } else {
      var rest, y := after[..|after| - 1], after[|after| - 1];
      assert after == rest + [y];
      assert before + [x] + after == (before + [x] + rest) + [y];
      assert before + after == (before + rest) + [y];
      ActiveSectionSnoc(before + [x] + rest, y, pos);
      ActiveSectionSnoc(before + rest, y, pos);
      UnknownIdsIgnored(before, x, rest, pos);
    }
  }

  /**
   * The lookup `sectionColors[sectionId]` as written: a JavaScript object
   * literal also answers, with a truthy function or object, for the names its
   * prototype provides.
   */
  const InheritedNames: set<string> := {
    "constructor", "hasOwnProperty", "isPrototypeOf", "propertyIsEnumerable",
    "toLocaleString", "toString", "valueOf", "__proto__", "__defineGetter__",
    "__defineSetter__", "__lookupGetter__", "__lookupSetter__" }

  predicate TruthyLookup(id: string) {
    id in SectionColors || id in InheritedNames
  }

  /** The selection as written, with the truthiness test of the table lookup. */
  function ActiveSectionAsWritten(sections: seq<Section>, pos: real): (r: string)
    ensures r == DefaultSection || exists i :: 0 <= i < |sections| && sections[i].id == r
  {
    if sections == [] then DefaultSection
    else
      var last := sections[|sections| - 1];
      if Contains(last, pos) && TruthyLookup(last.id) then last.id
      else
        var r := ActiveSectionAsWritten(sections[..|sections| - 1], pos);
        assert r == DefaultSection || exists i :: 0 <= i < |sections| && sections[i].id == r by {
          if r != DefaultSection {
            var i :| 0 <= i < |sections| - 1 && sections[..|sections| - 1][i].id == r;
            assert sections[i] == sections[..|sections| - 1][i];
          }
        }
        r
  }

  /**
   * A section with id "constructor" under the scroll point is chosen as written,
   * although the table has no colour for it: the background is then assigned a
   * function instead of a colour.
   */
  lemma InheritedNameIsChosen()
    ensures ActiveSectionAsWritten([Section("constructor", 0.0, 100.0)], 50.0) == "constructor"
    ensures "constructor" !in SectionColors
  {
    assert "constructor" in InheritedNames;
  }

  /** On pages whose section ids are no prototype names, the code as written and the corrected selection agree. */
  lemma {:induction false} AsWrittenAgreesOnOrdinaryIds(sections: seq<Section>, pos: real)
    requires forall i :: 0 <= i < |sections| ==> sections[i].id !in InheritedNames
    ensures ActiveSectionAsWritten(sections, pos) == ActiveSection(sections, pos)
    decreases |sections|
  {
    if sections != [] {
      var prefix := sections[..|sections| - 1];
      forall i | 0 <= i < |prefix| ensures prefix[i].id !in InheritedNames {
        assert prefix[i] == sections[i];
      }
      AsWrittenAgreesOnOrdinaryIds(prefix, pos);
    }
  }

  /**
   * The state `initColorTransitions` sets up: the body's background colour, the
   * `ticking` flag of the scroll listener, and the animation-frame callbacks it
   * has requested that have not run yet.
   */
  class Transitions {
    var backgroundColor: string
    var ticking: bool
    var pendingFrames: nat

    /** At most one frame is pending, and `ticking` says whether one is. */
    ghost predicate Valid()
      reads this
    {
      pendingFrames <= 1 && (ticking <==> pendingFrames == 1)
    }

    /** initColorTransitions: nothing pending, then the initial update. */
    constructor(sections: seq<Section>, scrollY: real, innerHeight: real, background: string)
      ensures Valid() && !ticking
      ensures backgroundColor == SectionColors[ActiveSection(sections, ScrollPosition(scrollY, innerHeight))]
    {
      backgroundColor := background;
      ticking := false;
      pendingFrames := 0;
      new;
      UpdateBackgroundColor(sections, scrollY, innerHeight);
    }

    /** updateBackgroundColor: the pass over the sections, then the assignment to the body's background. */
    method UpdateBackgroundColor(sections: seq<Section>, scrollY: real, innerHeight: real)
      modifies this
      ensures backgroundColor == SectionColors[ActiveSection(sections, ScrollPosition(scrollY, innerHeight))]
      ensures ticking == old(ticking) && pendingFrames == old(pendingFrames)
    {
      var pos := scrollY + innerHeight / 2.0;
      var active := DefaultSection;
      var i := 0;
      while i < |sections|
        invariant 0 <= i <= |sections|
        invariant active == ActiveSection(sections[..i], pos)
      {
        var top := sections[i].top;
        var bottom := top + sections[i].height;
        if pos >= top && pos < bottom {
          if sections[i].id in SectionColors {
            active := sections[i].id;
          }
        }
        assert sections[..i + 1][..i] == sections[..i];
        i := i + 1;
      }
      assert sections[..|sections|] == sections;
      backgroundColor := SectionColors[active];
    }

    /** The scroll listener: request a frame unless one is already pending. */
    method OnScroll()
      requires Valid()
      modifies this
      ensures Valid() && ticking && pendingFrames == 1
      ensures backgroundColor == old(backgroundColor)
    {
      if !ticking {
        pendingFrames := pendingFrames + 1;  // requestAnimationFrame
        ticking := true;
      }
    }

    /** The requested animation frame runs: update the colour and clear the flag. */
    method RunFrame(sections: seq<Section>, scrollY: real, innerHeight: real)
      requires Valid() && pendingFrames > 0
      modifies this
      ensures Valid() && !ticking && pendingFrames == 0
      ensures backgroundColor == SectionColors[ActiveSection(sections, ScrollPosition(scrollY, innerHeight))]
    {
      pendingFrames := pendingFrames - 1;
      UpdateBackgroundColor(sections, scrollY, innerHeight);
      ticking := false;
    }
  }
}
