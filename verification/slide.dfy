/**
 * The Slide class: validated construction and navigation over a non-empty
 * list of slide elements, exactly one of which carries the `active` class
 * once shown. Each element is an opaque value of type `E`; its `active` class
 * is the matching entry of the array `active`, which `show` rewrites in
 * place.
 */
module Slides {
  import opened Options
  import opened Results
  import opened SlideSpec

  class Slide<E> {
    const container: E
    const slides: seq<E>
    const controls: E
    const time: int
    /** `active[j]` holds when `slides[j]` carries the `active` class. */
    const active: array<bool>
    var index: nat
    var slide: E

    /** A non-empty list, one flag per slide, and `slide` the element at `index`. */
    ghost predicate Valid()
      reads this
    {
      && |slides| > 0
      && active.Length == |slides|
      && index < |slides|
      && slide == slides[index]
    }

    /** The slide at `index` is the only active one. */
    ghost predicate Shown()
      reads this, active
    {
      OnlyActiveAt(active[..], index)
    }

    /**
     * Stores the arguments and starts at the first slide. `create` rejects
     * an empty list before calling it, so the constructor's own checks never
     * fail.
     */
    constructor (container: E, slides: seq<E>, controls: E, time: int := 5000)
      requires |slides| > 0
      ensures Valid() && fresh(active)
      ensures this.container == container && this.slides == slides
      ensures this.controls == controls && this.time == time
      ensures index == 0 && slide == slides[0]
    {
      this.container := container;
      this.slides := slides;
      this.controls := controls;
      this.time := time;
      active := new bool[|slides|];
      index := 0;
      slide := slides[0];
    }

    /**
     * The validated factory: an error message from the first failing
     * guard, or a new Slide showing its first slide.
     */
    static method Create(container: Option<E>, slides: Option<seq<E>>, controls: Option<E>, time: int := 5000)
      returns (r: Result<Slide<E>>)
      ensures r.Err? <==> CreateFailure(container, slides, controls).Some?
      ensures r.Err? ==> Some(r.error) == CreateFailure(container, slides, controls)
      ensures r.Ok? ==> && fresh(r.value) && fresh(r.value.active)
                        && r.value.Valid() && r.value.Shown()
                        && r.value.slides == slides.value && r.value.time == time
                        && r.value.container == container.value && r.value.controls == controls.value
                        && r.value.index == 0 && r.value.slide == slides.value[0]
    {
      if slides.None? {
        return MakeErr(SlidesNotFound);
      }
      if |slides.value| == 0 {
        return MakeErr(SlidesEmpty);
      }
      if container.None? {
        return MakeErr(ContainerNotFound);
      }
      if controls.None? {
        return MakeErr(ControlsNotFound);
      }
      var created := new Slide(container.value, slides.value, controls.value, time);
      created.Init();
      return MakeOk(created);
    }

    /** Removes the `active` class from the slide at `j`. */
    method Hide(j: nat)
      requires j < active.Length
      modifies active
      ensures !active[j]
      ensures forall k :: 0 <= k < active.Length && k != j ==> active[k] == old(active[k])
    {
      active[j] := false;
    }

    /**
     * Moves to `i` clamped into range, clears every slide's `active` class
     * and sets it on the new current slide: exactly one slide is active.
     */
    method Show(i: int)
      requires Valid()
      modifies this, active
      ensures Valid() && Shown()
      ensures index == Clamp(i, |slides|)
      ensures CountActive(active[..]) == 1
    {
      index := Clamp(i, active.Length);
      var j := 0;
      while j < active.Length
        invariant 0 <= j <= active.Length
        invariant index == Clamp(i, active.Length)
        invariant forall k :: 0 <= k < j ==> !active[k]
      {
        Hide(j);
        j := j + 1;
      }
      slide := slides[index];
      active[index] := true;
      ExactlyOneActive(active[..], index);
    }

    /** One slide back; from the first slide it stays there. */
    method Prev()
      requires Valid()
      modifies this, active
      ensures Valid() && Shown()
      ensures index == PrevIndex(old(index), |slides|)
    {
      if index >= 0 {
        Show(index - 1);
      } else {
        // unreachable: the index is never negative, so the source's
        // jump to the last slide here never happens
        assert false;
      }
    }

    /** One slide forward; from the last slide back to the first. */
    method Next()
      requires Valid()
      modifies this, active
      ensures Valid() && Shown()
      ensures index == NextIndex(old(index), |slides|)
    {
      if index < active.Length - 1 {
        Show(index + 1);
      } else {
        Show(0);
      }
    }

    /** Shows the current slide (the controls' buttons are not part of this model). */
    method Init()
      requires Valid()
      modifies this, active
      ensures Valid() && Shown()
      ensures index == old(index)
    {
      Show(index);
    }
  }
}
