/**
 * The hero title's particle effect: the title's text is split into one span
 * per character, and small particles are spawned above it, at most
 * `MaxParticles` at a time, and removed once they fall below the canvas.
 */
module TextPhysics {
  import opened Wrappers

  /** The opening tag every letter is wrapped in. */
  const SpanOpen := "<span style=\"display: inline-block; position: relative; color: inherit; font-size: inherit; font-weight: inherit;\">"
  const SpanClose := "</span>"
  /** What a space becomes, so that the browser does not collapse it. */
  const Nbsp := "&nbsp;"

  /** The content of the span for one character. */
  function Letter(c: char): string {
    if c == ' ' then Nbsp else [c]
  }

  /** The markup setupNameParticles assigns to the title: one span per character, in order. */
  function Markup(text: string): (r: string)
    ensures r == [] <==> text == []
    ensures text != [] ==> SpanOpen <= r
  {
    if text == [] then [] else SpanOpen + Letter(text[0]) + SpanClose + Markup(text[1..])
  }

  /** Reads markup built of such spans back into the characters they hold; None for anything else. */
  function ReadMarkup(html: string): Option<string>
    decreases |html|
  {
    var open, close := |SpanOpen|, |SpanClose|;
    if html == [] then Some([])
    else if |html| < open + 1 + close || html[..open] != SpanOpen then None
    else
      var body := html[open..];
      if |body| >= |Nbsp| + close && body[..|Nbsp|] == Nbsp && body[|Nbsp|..|Nbsp| + close] == SpanClose then
        match ReadMarkup(body[|Nbsp| + close..])
        case None => None
        case Some(rest) => Some([' '] + rest)
      else if body[1..1 + close] == SpanClose then
        match ReadMarkup(body[1 + close..])
        case None => None
        case Some(rest) => Some([body[0]] + rest)
      else None
  }

  /** The span of a space: the open tag, the non-breaking space, the close tag, then what follows. */
  lemma ReadSpaceSpan(tail: string)
    ensures var html := SpanOpen + Letter(' ') + SpanClose + tail;
      && |html| >= |SpanOpen| + 1 + |SpanClose| && html[..|SpanOpen|] == SpanOpen
      && var body := html[|SpanOpen|..];
      && body[..|Nbsp|] == Nbsp && body[|Nbsp|..|Nbsp| + |SpanClose|] == SpanClose
      && body[|Nbsp| + |SpanClose|..] == tail
  {
    var html := SpanOpen + Letter(' ') + SpanClose + tail;
    assert html == SpanOpen + (Nbsp + (SpanClose + tail));
    var body := html[|SpanOpen|..];
    assert body == Nbsp + (SpanClose + tail);
  }

  /** The span of any other character: the open tag, the character, the close tag, then what follows. */
  lemma ReadCharSpan(c: char, tail: string)
    requires c != ' '
    ensures var html := SpanOpen + Letter(c) + SpanClose + tail;
      && |html| >= |SpanOpen| + 1 + |SpanClose| && html[..|SpanOpen|] == SpanOpen
      && var body := html[|SpanOpen|..];
      && body[0] == c && body[1..1 + |SpanClose|] == SpanClose && body[1 + |SpanClose|..] == tail
      && !(|body| >= |Nbsp| + |SpanClose| && body[..|Nbsp|] == Nbsp)
  {
    var html := SpanOpen + Letter(c) + SpanClose + tail;
    assert html == SpanOpen + ([c] + (SpanClose + tail));
    var body := html[|SpanOpen|..];
    assert body == [c] + (SpanClose + tail);
    assert body[1] == '<' != Nbsp[1];
  }

  /** Reading the markup back gives the title's text: one span per character, in order, a space as a non-breaking space. */
  lemma {:induction false} MarkupRoundTrip(text: string)
    ensures ReadMarkup(Markup(text)) == Some(text)
  {
    if text != [] {
      if text[0] == ' ' {
        ReadSpaceSpan(Markup(text[1..]));
      } else {
        ReadCharSpan(text[0], Markup(text[1..]));
      }
      MarkupRoundTrip(text[1..]);
      assert [text[0]] + text[1..] == text;
    }
  }

  /** `maxParticles`. */
  const MaxParticles: nat := 40

  /** A particle's circle body, reduced to its identity and its height in the canvas. */
  datatype Particle = Particle(id: nat, y: real)

  /** The particle bodies among `ps`. */
  function IdsOf(ps: seq<Particle>): set<nat> {
    set p | p in ps :: p.id
  }

  predicate DistinctIds(ps: seq<Particle>) {
    forall i, j :: 0 <= i < j < |ps| ==> ps[i].id != ps[j].id
  }

  /** What one round of the prune loop leaves of particle `p`. */
  function Kept(p: Particle, height: real): seq<Particle> {
    if p.y > height then [] else [p]
  }

  /** The particles the prune loop keeps, in their order: those not below the canvas. */
  function Retained(ps: seq<Particle>, height: real): (r: seq<Particle>)
    ensures |r| <= |ps|
  {
    if ps == [] then [] else Kept(ps[0], height) + Retained(ps[1..], height)
  }

  /** One round of the backwards loop, at index `i`, extends the pruned suffix by one. */
  lemma PruneRound(o: seq<Particle>, cur: seq<Particle>, i: nat, height: real)
    requires i < |o| && i < |cur|
    requires cur == o[..i + 1] + Retained(o[i + 1..], height)
    ensures cur[..i] + Kept(cur[i], height) + cur[i + 1..] == o[..i] + Retained(o[i..], height)
  {
    assert cur[..i] == o[..i] && cur[i] == o[i];
    assert cur[i + 1..] == Retained(o[i + 1..], height);
    assert o[i..][0] == o[i] && o[i..][1..] == o[i + 1..];
  }

  lemma {:induction false} RetainedMembers(ps: seq<Particle>, height: real)
    ensures forall p :: p in Retained(ps, height) <==> p in ps && p.y <= height
  {
    if ps != [] {
      RetainedMembers(ps[1..], height);
      assert ps == [ps[0]] + ps[1..];
    }
  }

  /** Pruning a concatenation prunes each part: what is kept keeps its relative order. */
  lemma {:induction false} RetainedAppend(a: seq<Particle>, b: seq<Particle>, height: real)
    ensures Retained(a + b, height) == Retained(a, height) + Retained(b, height)
  {
    if a != [] {
      var keep := if a[0].y > height then [] else [a[0]];
      assert (a + b)[0] == a[0] && (a + b)[1..] == a[1..] + b;
      assert Retained(a + b, height) == keep + Retained(a[1..] + b, height);
      RetainedAppend(a[1..], b, height);
      assert keep + (Retained(a[1..], height) + Retained(b, height))
          == (keep + Retained(a[1..], height)) + Retained(b, height);
    } else {
      assert a + b == b;
    }
  }

  /** A second prune against the same height removes nothing. */
  lemma {:induction false} RetainedIdempotent(ps: seq<Particle>, height: real)
    ensures Retained(Retained(ps, height), height) == Retained(ps, height)
  {
    if ps != [] {
      RetainedIdempotent(ps[1..], height);
      if ps[0].y <= height {
        var r := Retained(ps, height);
        assert r == [ps[0]] + Retained(ps[1..], height);
        assert r[0] == ps[0] && r[1..] == Retained(ps[1..], height);
        assert Retained(r, height) == [r[0]] + Retained(r[1..], height);
      } else {
        assert Retained(ps, height) == [] + Retained(ps[1..], height) == Retained(ps[1..], height);
      }
    }
  }

  lemma {:induction false} RetainedDistinct(ps: seq<Particle>, height: real)
    requires DistinctIds(ps)
    ensures DistinctIds(Retained(ps, height))
  {
    if ps != [] {
      var tail := ps[1..];
      assert DistinctIds(tail) by {
        forall i, j | 0 <= i < j < |tail| ensures tail[i].id != tail[j].id {
          assert tail[i] == ps[i + 1] && tail[j] == ps[j + 1];
        }
      }
      RetainedDistinct(tail, height);
      RetainedMembers(tail, height);
      var r := Retained(ps, height);
      if ps[0].y <= height {
        forall i, j | 0 <= i < j < |r| ensures r[i].id != r[j].id {
          if i == 0 {
            assert r[j] == Retained(tail, height)[j - 1] && r[j] in tail;
            var k :| 0 <= k < |tail| && tail[k] == r[j];
            assert ps[k + 1] == r[j];
          } else {
            assert r[i] == Retained(tail, height)[i - 1] && r[j] == Retained(tail, height)[j - 1];
          }
        }
      }
    }
  }

  lemma RemoveAtIds(ps: seq<Particle>, i: nat)
    requires i < |ps| && DistinctIds(ps)
    ensures IdsOf(ps[..i] + ps[i + 1..]) == IdsOf(ps) - {ps[i].id}
  {
    var qs := ps[..i] + ps[i + 1..];
    forall p | p in qs ensures p in ps && p.id != ps[i].id {
      var k :| 0 <= k < |qs| && qs[k] == p;
      if k < i { assert qs[k] == ps[k]; } else { assert qs[k] == ps[k + 1]; }
    }
    forall p | p in ps && p.id != ps[i].id ensures p in qs {
      var k :| 0 <= k < |ps| && ps[k] == p;
      if k < i { assert qs[k] == p; } else { assert k != i && qs[k - 1] == p; }
    }
  }

  lemma RemoveAtDistinct(ps: seq<Particle>, i: nat)
    requires i < |ps| && DistinctIds(ps)
    ensures DistinctIds(ps[..i] + ps[i + 1..])
  {
    var qs := ps[..i] + ps[i + 1..];
    forall a, b | 0 <= a < b < |qs| ensures qs[a].id != qs[b].id {
      var a', b' := if a < i then a else a + 1, if b < i then b else b + 1;
      assert qs[a] == ps[a'] && qs[b] == ps[b'];
    }
  }

  /** Two lists with the same ids position by position have the same id set, and the same distinctness. */
  lemma SameIds(ps: seq<Particle>, qs: seq<Particle>)
    requires |ps| == |qs| && forall i :: 0 <= i < |ps| ==> qs[i].id == ps[i].id
    ensures IdsOf(qs) == IdsOf(ps)
    ensures DistinctIds(ps) ==> DistinctIds(qs)
  {
    forall q | q in qs ensures q.id in IdsOf(ps) {
      var i :| 0 <= i < |qs| && qs[i] == q;
      assert ps[i] in ps;
    }
    forall p | p in ps ensures p.id in IdsOf(qs) {
      var i :| 0 <= i < |ps| && ps[i] == p;
      assert qs[i] in qs;
    }
  }

  /**
   * The particle state of setupNameParticles: the `particles` list, the
   * particle bodies in the engine's world, the canvas height, and the next
   * identity the engine will hand out.
   */
  class ParticleField {
    var particles: seq<Particle>
    var world: set<nat>
    var canvasHeight: real
    var nextId: nat

    /** At most 40 particles, each in the world exactly while it is in the list. */
    ghost predicate Valid()
      reads this
    {
      && |particles| <= MaxParticles
      && DistinctIds(particles)
      && world == IdsOf(particles)
      && forall id :: id in world ==> id < nextId
    }

    constructor(height: real)
      ensures Valid() && particles == [] && world == {} && canvasHeight == height
    {
      particles := [];
      world := {};
      canvasHeight := height;
      nextId := 0;
    }

    /** createParticle: nothing at the cap; otherwise a new body enters the world and the list together. */
    method CreateParticle()
      requires Valid()
      modifies this
      ensures Valid() && canvasHeight == old(canvasHeight)
      ensures |old(particles)| >= MaxParticles ==> particles == old(particles) && world == old(world)
      ensures |old(particles)| < MaxParticles ==>
        && particles == old(particles) + [Particle(old(nextId), -10.0)]
        && world == old(world) + {old(nextId)}
    {
      if |particles| >= MaxParticles {
        return;
      }
      var particle := Particle(nextId, -10.0);
      nextId := nextId + 1;
      world := world + {particle.id};  // World.add
      particles := particles + [particle];
    }

    /** The engine moves the particles; their new heights come from the physics library. */
    method Move(heights: seq<real>)
      requires Valid() && |heights| == |particles|
      modifies this
      ensures Valid() && world == old(world) && canvasHeight == old(canvasHeight)
      ensures |particles| == |old(particles)|
      ensures forall i :: 0 <= i < |particles| ==> particles[i] == Particle(old(particles)[i].id, heights[i])
    {
      var ps := particles;
      particles := seq(|ps|, i requires 0 <= i < |ps| => Particle(ps[i].id, heights[i]));
      SameIds(ps, particles);
    }

    /** The resize listener gives the canvas the container's new height. */
    method ResizeCanvas(height: real)
      requires Valid()
      modifies this
      ensures Valid() && canvasHeight == height && particles == old(particles) && world == old(world)
    {
      canvasHeight := height;
    }

    /** The prune loop of animate: walk the list backwards, removing each particle below the canvas from world and list. */
    method Prune()
      requires Valid()
      modifies this
      ensures Valid() && canvasHeight == old(canvasHeight)
      ensures particles == Retained(old(particles), canvasHeight)
    {
      var i := |particles| - 1;
      while i >= 0
        invariant -1 <= i < |particles|
        invariant Valid() && canvasHeight == old(canvasHeight)
        invariant particles == old(particles)[..i + 1] + Retained(old(particles)[i + 1..], canvasHeight)
      {
        PruneRound(old(particles), particles, i, canvasHeight);
        PruneAt(i);
        i := i - 1;
      }
      assert i == -1;
      assert particles == old(particles)[..0] + Retained(old(particles)[0..], canvasHeight);
      assert old(particles)[..0] == [] && old(particles)[0..] == old(particles);
      assert particles == Retained(old(particles), canvasHeight);
    }

    /** The body of the prune loop, at index `i`. */
    method PruneAt(i: nat)
      requires Valid() && i < |particles|
      modifies this
      ensures Valid() && canvasHeight == old(canvasHeight)
      ensures particles == old(particles)[..i] + Kept(old(particles)[i], canvasHeight) + old(particles)[i + 1..]
    {
      if particles[i].y > canvasHeight {
        RemoveAt(i);
      } else {
        assert particles == particles[..i] + [particles[i]] + particles[i + 1..];
      }
    }

    /** `World.remove` and `particles.splice(i, 1)`. */
    method RemoveAt(i: nat)
      requires Valid() && i < |particles|
      modifies this
      ensures Valid() && canvasHeight == old(canvasHeight) && nextId == old(nextId)
      ensures particles == old(particles)[..i] + old(particles)[i + 1..]
    {
      RemoveAtIds(particles, i);
      RemoveAtDistinct(particles, i);
      world := world - {particles[i].id};
      particles := particles[..i] + particles[i + 1..];
      forall p | p in particles ensures p in old(particles) {
        var k :| 0 <= k < |particles| && particles[k] == p;
        if k < i { assert old(particles)[k] == p; } else { assert old(particles)[k + 1] == p; }
      }
    }
  }
}
