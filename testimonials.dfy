/** The testimonial carousel: an index into the testimonial list, moved by the next and
    previous buttons and by the dots, and the card rendered for the current entry. */
module Testimonials {
  import opened PortfolioTypes
  import Catalog

  function Abs(x: int): nat { if x < 0 then -x else x }

  /** JavaScript's `%` operator on integers: the remainder of division truncated toward zero,
      which takes the sign of the dividend (Dafny's own `%` is Euclidean). */
  function JsRem(a: int, b: int): (r: int)
    requires b != 0
    ensures (a - r) % Abs(b) == 0
    ensures Abs(r) < Abs(b)
    ensures a >= 0 ==> r >= 0
    ensures a <= 0 ==> r <= 0
  {
    var m := Abs(b);
    if a >= 0 then
      DivModUnique(a - a % m, m, a / m, 0);
      a % m
    else
      DivModUnique(a + (-a) % m, m, -((-a) / m), 0);
      -((-a) % m)
  }

  /** Euclidean division is determined by any decomposition `a == q * m + r` with
      `0 <= r < m`. */
  lemma DivModUnique(a: int, m: int, q: int, r: int)
    requires m > 0 && a == q * m + r && 0 <= r < m
    ensures a / m == q && a % m == r
  {
    var q0, r0 := a / m, a % m;
    assert a == q0 * m + r0;
    var d := q - q0;
    assert d * m == r0 - r by {
      assert q * m - q0 * m == (q - q0) * m;
    }
  }

  /** Adding one to a non-negative number advances its remainder by one, wrapping at `m`. */
  lemma ModSucc(x: int, m: int)
    requires x >= 0 && m > 0
    ensures (x + 1) % m == if x % m == m - 1 then 0 else x % m + 1
  {
    var q, r := x / m, x % m;
    DivModUnique(x, m, q, r);
    if r == m - 1 {
      DivModUnique(x + 1, m, q + 1, 0);
    } else {
      DivModUnique(x + 1, m, q, r + 1);
    }
  }

  /** For a dividend in `[0, 2m)` the remainder is at most one subtraction of `m`. */
  lemma JsRemBelowTwice(a: int, m: int)
    requires m > 0 && 0 <= a < 2 * m
    ensures JsRem(a, m) == if a < m then a else a - m
  {
    if a < m {
      DivModUnique(a, m, 0, a);
    } else {
      DivModUnique(a, m, 1, a - m);
    }
  }

  /** `(prev + 1) % testimonials.length`: one step forward, wrapping from the last entry to
      the first. */
  function Next(i: int, n: int): (r: int)
    requires n > 0
    ensures 0 <= i < n ==> 0 <= r < n && r == if i == n - 1 then 0 else i + 1
  {
    if 0 <= i < n then JsRemBelowTwice(i + 1, n); JsRem(i + 1, n)
    else JsRem(i + 1, n)
  }

  /** `(prev - 1 + testimonials.length) % testimonials.length`: one step back, wrapping from
      the first entry to the last. */
  function Prev(i: int, n: int): (r: int)
    requires n > 0
    ensures 0 <= i < n ==> 0 <= r < n && r == if i == 0 then n - 1 else i - 1
  {
    if 0 <= i < n then JsRemBelowTwice(i - 1 + n, n); JsRem(i - 1 + n, n)
    else JsRem(i - 1 + n, n)
  }

  /** Previous undoes next and next undoes previous. */
  lemma PrevNextInverse(i: int, n: int)
    requires 0 <= i < n
    ensures Prev(Next(i, n), n) == i && Next(Prev(i, n), n) == i
  {
  }

  /** The index after `k` presses of the next button. */
  function Advance(i: int, n: int, k: nat): (r: int)
    requires n > 0
    ensures 0 <= i < n ==> 0 <= r < n
  {
    if k == 0 then i else Next(Advance(i, n, k - 1), n)
  }

  /** `k` presses of next rotate the index by `k` places modulo the list length. */
  lemma {:induction false} AdvanceRotates(i: int, n: int, k: nat)
    requires 0 <= i < n
    ensures Advance(i, n, k) == (i + k) % n
  {
    if k == 0 {
      DivModUnique(i, n, 0, i);
    } else {
      AdvanceRotates(i, n, k - 1);
      ModSucc(i + k - 1, n);
    }
  }

  /** Pressing next as many times as there are testimonials comes back to the start. */
  lemma NextCycleLength(i: int, n: int)
    requires 0 <= i < n
    ensures Advance(i, n, n) == i
    ensures forall k :: 0 < k < n ==> Advance(i, n, k) != i
  {
    AdvanceRotates(i, n, n);
    DivModUnique(i + n, n, 1, i);
    forall k | 0 < k < n ensures Advance(i, n, k) != i {
      AdvanceRotates(i, n, k);
      if i + k < n {
        DivModUnique(i + k, n, 0, i + k);
      } else {
        DivModUnique(i + k, n, 1, i + k - n);
      }
    }
  }

  /** The dots row: dot `k` is highlighted when `k === activeIndex`. */
  function Dots(n: nat, active: int): (dots: seq<bool>)
    ensures |dots| == n
  {
    seq(n, k => k == active)
  }

  function CountTrue(s: seq<bool>): nat
  {
    if s == [] then 0 else CountTrue(s[..|s| - 1]) + (if s[|s| - 1] then 1 else 0)
  }

  /** With the index in range exactly one dot is highlighted, the one at the index. */
  lemma {:induction false} ExactlyOneActiveDot(n: nat, active: int)
    requires 0 <= active < n
    ensures Dots(n, active)[active]
    ensures CountTrue(Dots(n, active)) == 1
  {
    NoActiveDotBefore(n, active);
  }

  lemma {:induction false} NoActiveDotBefore(n: nat, active: int)
    requires 0 <= active
    ensures CountTrue(Dots(n, active)) == if active < n then 1 else 0
  {
    if n > 0 {
      NoActiveDotBefore(n - 1, active);
      assert Dots(n, active)[..n - 1] == Dots(n - 1, active);
    }
  }

  /** The card shown for the current testimonial. */
  datatype Card = Card(content: string, stars: seq<nat>, avatar: string, name: string, role: string,
                       company: string, projectTypeChip: Option<string>)

  /** `[...Array(rating)].map((_, i) => <Star key={i} />)`: one star per rating point, keyed by
      its position. */
  function StarKeys(rating: nat): (keys: seq<nat>)
    ensures |keys| == rating
    ensures forall i :: 0 <= i < |keys| ==> keys[i] == i
  {
    if rating == 0 then [] else StarKeys(rating - 1) + [rating - 1]
  }

  /** The card renders one star per rating point and the project-type chip, holding the
      project type, only for a truthy project type. */
  function RenderCard(t: Testimonial): (c: Card)
    requires t.rating >= 0
    ensures |c.stars| == t.rating
    ensures c.projectTypeChip.Some? <==> t.projectType.Some? && t.projectType.value != ""
    ensures c.projectTypeChip.Some? ==> c.projectTypeChip == t.projectType
    ensures c.content == t.content && c.name == t.name && c.avatar == t.avatar
    ensures c.role == t.role && c.company == t.company
  {
    var chip := if t.projectType.Some? && t.projectType.value != "" then t.projectType else None;
    Card(t.content, StarKeys(t.rating), t.avatar, t.name, t.role, t.company, chip)
  }

  /** The shipped list has four testimonials, each rated between one and five: next from the
      last wraps to the first, previous from the first gives the last, and four presses of
      next return to the start. */
  lemma ShippedCarousel()
    ensures |Catalog.Testimonials| == 4
    ensures forall t :: t in Catalog.Testimonials ==> WellFormedTestimonial(t)
    ensures Next(3, 4) == 0 && Prev(0, 4) == 3 && Advance(0, 4, 4) == 0
  {
    NextCycleLength(0, 4);
  }

  /** The carousel component, whose `activeIndex` its handlers overwrite. */
  class Carousel {
    const testimonials: seq<Testimonial>
    var activeIndex: int

    ghost predicate Valid()
      reads this
    {
      0 <= activeIndex < |testimonials|
    }

    /** The initial index is 0. The component reads `testimonials[activeIndex]` on its first
        render, so the list cannot be empty. */
    constructor (testimonials: seq<Testimonial>)
      requires |testimonials| > 0
      ensures this.testimonials == testimonials
      ensures Valid() && activeIndex == 0
    {
      this.testimonials := testimonials;
      activeIndex := 0;
    }

    method NextTestimonial()
      requires Valid()
      modifies this
      ensures Valid() && activeIndex == Next(old(activeIndex), |testimonials|)
    {
      activeIndex := JsRem(activeIndex + 1, |testimonials|);
    }

    method PrevTestimonial()
      requires Valid()
      modifies this
      ensures Valid() && activeIndex == Prev(old(activeIndex), |testimonials|)
    {
      activeIndex := JsRem(activeIndex - 1 + |testimonials|, |testimonials|);
    }

    /** A click on dot `index`; the dots are drawn one per testimonial, so it is in range. */
    method SelectDot(index: int)
      requires Valid() && 0 <= index < |testimonials|
      modifies this
      ensures Valid() && activeIndex == index
    {
      activeIndex := index;
    }

    /** `testimonials[activeIndex]`, in bounds in every state the handlers can reach. */
    function Current(): (t: Testimonial)
      reads this
      requires Valid()
      ensures t in testimonials
    {
      testimonials[activeIndex]
    }

    /** The dots row of the current state: one dot per testimonial, exactly one of them
        highlighted, the current testimonial's. */
    function ActiveDots(): (dots: seq<bool>)
      reads this
      requires Valid()
      ensures |dots| == |testimonials|
      ensures dots[activeIndex] && CountTrue(dots) == 1
    {
      ExactlyOneActiveDot(|testimonials|, activeIndex);
      Dots(|testimonials|, activeIndex)
    }
  }
}
