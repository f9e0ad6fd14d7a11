/**
 * The work section's sketch: one oval node per catalogue record, laid out at
 * fixed fractions of the canvas, numbered "01", "02", ..., and flagged while
 * the mouse hovers over it.
 */
module WorkVisualization {
  import opened Wrappers
  import opened ProjectData

  /** A layout slot, as fractions of the canvas width and height. */
  datatype Position = Position(x: real, y: real)

  /** `projectPositions`: the six slots of the flowing path. */
  const ProjectPositions: seq<Position> := [
    Position(0.15, 0.15), Position(0.35, 0.25), Position(0.55, 0.18),
    Position(0.20, 0.50), Position(0.45, 0.60), Position(0.70, 0.55)]

  /** The canvas height `createCanvas` and `resizeCanvas` are given. */
  const CanvasHeight: real := 800.0

  /** One entry of the sketch's `projects` array. */
  datatype ProjectNode = ProjectNode(
    id: string,
    title: string,
    hasEmbed: bool,
    index: nat,
    x: real,
    y: real,
    baseX: real,
    baseY: real,
    hovered: bool)

  /** The node initializeProjects pushes for record `p` at position `index` of the catalogue. */
  function NodeFor(p: Project, index: nat, width: real, height: real): (r: ProjectNode)
    requires index < |ProjectPositions|
    ensures 0.0 < r.baseX < 1.0 && 0.0 < r.baseY < 1.0
    ensures 0.0 <= width ==> 0.0 <= r.x <= width
    ensures 0.0 <= height ==> 0.0 <= r.y <= height
  {
    var pos := ProjectPositions[index];
    ProjectNode(p.id, p.title, p.hasEmbed, index, width * pos.x, height * pos.y, pos.x, pos.y, false)
  }

  /** The nodes for the records `cs`, in catalogue order. */
  function Placed(cs: seq<Project>, width: real, height: real): (r: seq<ProjectNode>)
    requires |cs| <= |ProjectPositions|
    ensures |r| == |cs|
    ensures forall i :: 0 <= i < |cs| ==> r[i] == NodeFor(cs[i], i, width, height)
  {
    if cs == [] then []
    else Placed(cs[..|cs| - 1], width, height) + [NodeFor(cs[|cs| - 1], |cs| - 1, width, height)]
  }

  /**
   * The node for record `i`: id, title and `hasEmbed` copied, `index` its
   * position, not hovered, and placed at its slot on the canvas.
   */
  lemma PlacedNode(cs: seq<Project>, width: real, height: real, i: nat)
    requires |cs| <= |ProjectPositions| && i < |cs|
    ensures var n := Placed(cs, width, height)[i];
      && n.id == cs[i].id && n.title == cs[i].title && n.hasEmbed == cs[i].hasEmbed
      && n.index == i && !n.hovered
      && n.baseX == ProjectPositions[i].x && n.baseY == ProjectPositions[i].y
      && n.x == width * ProjectPositions[i].x && n.y == height * ProjectPositions[i].y
  {
    var n := Placed(cs, width, height)[i];
    var pos := ProjectPositions[i];
    assert n == ProjectNode(cs[i].id, cs[i].title, cs[i].hasEmbed, i, width * pos.x, height * pos.y, pos.x, pos.y, false);
  }

  /** The nodes after windowResized: positions recomputed from the base fractions alone. */
  function Relaid(nodes: seq<ProjectNode>, width: real, height: real): (r: seq<ProjectNode>)
    ensures |r| == |nodes|
  {
    seq(|nodes|, i requires 0 <= i < |nodes| => nodes[i].(x := width * nodes[i].baseX, y := height * nodes[i].baseY))
  }

  /** Two node lists that differ only in their current positions relayout to the same list. */
  lemma RelaidForgetsPositions(a: seq<ProjectNode>, b: seq<ProjectNode>, width: real, height: real)
    requires |a| == |b|
    requires forall i :: 0 <= i < |a| ==> a[i].(x := 0.0, y := 0.0) == b[i].(x := 0.0, y := 0.0)
    ensures Relaid(a, width, height) == Relaid(b, width, height)
  {
    forall i | 0 <= i < |a| ensures Relaid(a, width, height)[i] == Relaid(b, width, height)[i] {
      assert a[i].(x := 0.0, y := 0.0).baseX == b[i].(x := 0.0, y := 0.0).baseX;
      assert a[i].(x := 0.0, y := 0.0).baseY == b[i].(x := 0.0, y := 0.0).baseY;
    }
  }

  /** Resizing after the initial layout gives the layout the new canvas would have had from the start. */
  lemma ResizeMatchesFreshLayout(cs: seq<Project>, w0: real, h0: real, w1: real, h1: real)
    requires |cs| <= |ProjectPositions|
    ensures Relaid(Placed(cs, w0, h0), w1, h1) == Placed(cs, w1, h1)
  {
    var a := Relaid(Placed(cs, w0, h0), w1, h1);
    var b := Placed(cs, w1, h1);
    forall i | 0 <= i < |cs| ensures a[i] == b[i] {
    }
  }

  /** The oval's size: 60 by 40, grown by 8 and 6 while hovered. */
  function OvalSize(hovered: bool): (r: (int, int))
    ensures r == if hovered then (68, 46) else (60, 40)
  {
    var width, height := 60, 40;
    if hovered then (width + 8, height + 6) else (width, height)
  }

  /** The decimal character of a digit. */
  function Digit(d: nat): char
    requires d < 10
  {
    ('0' as int + d) as char
  }

  predicate AllDigits(s: string) {
    forall k :: 0 <= k < |s| ==> '0' <= s[k] <= '9'
  }

  /** `n.toString()` for a natural number: its decimal digits, without leading zeros. */
  function DecimalString(n: nat): (s: string)
    ensures 1 <= |s| && AllDigits(s)
    ensures n < 10 ==> |s| == 1
    ensures 10 <= n < 100 ==> |s| == 2
  {
    if n < 10 then [Digit(n)] else DecimalString(n / 10) + [Digit(n % 10)]
  }

  /** `s.padStart(len, fill)` for a one-character fill. */
  function PadStart(s: string, len: nat, fill: char): (r: string)
    ensures |r| == if |s| >= len then |s| else len
    ensures '0' <= fill <= '9' && AllDigits(s) ==> AllDigits(r)
    decreases len - |s|
  {
    if |s| >= len then s else PadStart([fill] + s, len, fill)
  }

  /** The value of a string of decimal digits, leading zeros allowed. */
  function ParseDecimal(s: string): nat
    requires AllDigits(s)
  {
    if s == [] then 0 else ParseDecimal(s[..|s| - 1]) * 10 + (s[|s| - 1] as int - '0' as int)
  }

  /** The label drawn inside the oval at position `index`. */
  function DisplayNum(index: nat): (r: string)
    ensures AllDigits(r)
  {
    PadStart(DecimalString(index + 1), 2, '0')
  }

  lemma {:induction false} ParseDecimalString(n: nat)
    ensures ParseDecimal(DecimalString(n)) == n
  {
    if n >= 10 {
      var s := DecimalString(n);
      assert s[..|s| - 1] == DecimalString(n / 10);
      ParseDecimalString(n / 10);
    }
  }

  lemma {:induction false} ParseLeadingZero(s: string)
    requires AllDigits(s)
    ensures ParseDecimal(['0'] + s) == ParseDecimal(s)
    decreases |s|
  {
    if s != [] {
      var t := ['0'] + s;
      assert t[..|t| - 1] == ['0'] + s[..|s| - 1];
      ParseLeadingZero(s[..|s| - 1]);
    }
  }

  lemma {:induction false} ParsePadStart(s: string, len: nat)
    requires AllDigits(s)
    ensures AllDigits(PadStart(s, len, '0'))
    ensures ParseDecimal(PadStart(s, len, '0')) == ParseDecimal(s)
    decreases len - |s|
  {
    if |s| < len {
      ParseLeadingZero(s);
      ParsePadStart(['0'] + s, len);
    }
  }

  /** The label reads back as the node's one-based position, and has two digits up to the 99th node. */
  lemma DisplayNumRoundTrip(index: nat)
    ensures ParseDecimal(DisplayNum(index)) == index + 1
    ensures index + 1 < 100 ==> |DisplayNum(index)| == 2
  {
    ParseDecimalString(index + 1);
    ParsePadStart(DecimalString(index + 1), 2);
  }

  /** The six catalogue records are labelled "01" to "06". */
  lemma SixLabels()
    ensures DisplayNum(0) == "01" && DisplayNum(1) == "02" && DisplayNum(2) == "03"
    ensures DisplayNum(3) == "04" && DisplayNum(4) == "05" && DisplayNum(5) == "06"
  {
  }

  /** The sketch's state: the canvas size and the `projects` array. */
  class WorkSketch {
    var width: real
    var height: real
    var projects: seq<ProjectNode>

    /** The sketch function's locals, with the canvas setup creates. */
    constructor(windowWidth: real)
      ensures width == windowWidth && height == CanvasHeight && projects == []
    {
      width := windowWidth;
      height := CanvasHeight;
      projects := [];
    }

    /**
     * initializeProjects: one node per record. A record past the sixth has no
     * slot, so reading its position throws and leaves the first six nodes.
     */
    method InitializeProjects(catalogue: seq<Project>) returns (ok: bool)
      modifies this
      ensures ok <==> |catalogue| <= |ProjectPositions|
      ensures ok ==> projects == old(projects) + Placed(catalogue, width, height)
      ensures !ok ==> projects == old(projects) + Placed(catalogue[..|ProjectPositions|], width, height)
      ensures width == old(width) && height == old(height)
    {
      var index := 0;
      while index < |catalogue|
        invariant 0 <= index <= |catalogue| && index <= |ProjectPositions|
        invariant width == old(width) && height == old(height)
        invariant projects == old(projects) + Placed(catalogue[..index], width, height)
      {
        if index >= |ProjectPositions| {
          return false;  // projectPositions[index] is undefined
        }
        PushNode(catalogue[index], index);
        assert catalogue[..index + 1][..index] == catalogue[..index];
        index := index + 1;
      }
      assert catalogue[..index] == catalogue;
      return true;
    }

    /** The body of the forEach in initializeProjects. */
    method PushNode(p: Project, index: nat)
      requires index < |ProjectPositions|
      modifies this
      ensures projects == old(projects) + [NodeFor(p, index, width, height)]
      ensures width == old(width) && height == old(height)
    {
      var pos := ProjectPositions[index];
      var node := ProjectNode(p.id, p.title, p.hasEmbed, index, width * pos.x, height * pos.y, pos.x, pos.y, false);
      assert node == NodeFor(p, index, width, height);
      projects := projects + [node];
    }

    /** drawProjects' bookkeeping: set each node's hover flag, and the oval size and label it is drawn with. */
    method DrawProjects(isHovered: ProjectNode -> bool) returns (ovals: seq<(int, int)>, labels: seq<string>)
      modifies this
      ensures |projects| == |old(projects)| == |ovals| == |labels|
      ensures forall i :: 0 <= i < |projects| ==> projects[i] == old(projects)[i].(hovered := isHovered(old(projects)[i]))
      ensures forall i :: 0 <= i < |projects| ==> ovals[i] == OvalSize(projects[i].hovered) && labels[i] == DisplayNum(i)
      ensures width == old(width) && height == old(height)
    {
      ovals, labels := [], [];
      var index := 0;
      while index < |projects|
        invariant 0 <= index <= |projects| == |old(projects)|
        invariant |ovals| == |labels| == index
        invariant width == old(width) && height == old(height)
        invariant forall i :: 0 <= i < index ==> projects[i] == old(projects)[i].(hovered := isHovered(old(projects)[i]))
        invariant forall i :: index <= i < |projects| ==> projects[i] == old(projects)[i]
        invariant forall i :: 0 <= i < index ==> ovals[i] == OvalSize(projects[i].hovered) && labels[i] == DisplayNum(i)
      {
        var hovered := isHovered(projects[index]);
        projects := projects[index := projects[index].(hovered := hovered)];
        ovals := ovals + [OvalSize(hovered)];
        labels := labels + [DisplayNum(index)];
        index := index + 1;
      }
    }

    /** windowResized: a canvas of the new width and the usual height, and every node moved to its slot on it. */
    method WindowResized(windowWidth: real)
      modifies this
      ensures width == windowWidth && height == CanvasHeight
      ensures projects == Relaid(old(projects), width, height)
    {
      width, height := windowWidth, CanvasHeight;
      var index := 0;
      while index < |projects|
        invariant 0 <= index <= |projects| == |old(projects)|
        invariant width == windowWidth && height == CanvasHeight
        invariant forall i :: 0 <= i < index ==> projects[i] == Relaid(old(projects), width, height)[i]
        invariant forall i :: index <= i < |projects| ==> projects[i] == old(projects)[i]
      {
        var node := projects[index];
        projects := projects[index := node.(x := width * node.baseX, y := height * node.baseY)];
        index := index + 1;
      }
    }

    /** getHoveredProject: the first node whose hover flag is set, or none. */
    method GetHoveredProject() returns (r: Option<ProjectNode>)
      ensures r.None? <==> forall i :: 0 <= i < |projects| ==> !projects[i].hovered
      ensures r.Some? ==> exists i :: 0 <= i < |projects| && projects[i] == r.value && r.value.hovered
                                      && forall j :: 0 <= j < i ==> !projects[j].hovered
    {
      var index := 0;
      while index < |projects|
        invariant 0 <= index <= |projects|
        invariant forall j :: 0 <= j < index ==> !projects[j].hovered
      {
        if projects[index].hovered {
          return Some(projects[index]);
        }
        index := index + 1;
      }
      return None;
    }
  }

  /** The real catalogue fits the six slots, so initialisation succeeds and gives the labels "01" to "06". */
  lemma CatalogueFitsLayout()
    ensures |ProjectsData()| == |ProjectPositions|
  {
  }
}
