/** Release of COM interface pointers held in variables the caller owns. */
module ComRelease {

  /** A COM object; only the number of Release() calls it has received is observed. */
  class ComInterface {
    var releaseCount: nat

    constructor ()
      ensures releaseCount == 0
    {
      releaseCount := 0;
    }
  }

  /** A variable of interface-pointer type, passed by reference to SafeRelease. */
  class InterfacePointer {
    var target: ComInterface?

    constructor (t: ComInterface?)
      ensures target == t
    {
      target := t;
    }
  }

  /** Releases the interface the pointer refers to, if any, and nulls the pointer.
      `released` tells whether Release() was called. */
  method SafeRelease(p: InterfacePointer) returns (ghost released: bool)
    modifies p, p.target
    ensures p.target == null
    ensures released == (old(p.target) != null)
    ensures released ==> old(p.target).releaseCount == old(p.target.releaseCount) + 1
    ensures !released ==> unchanged(p)
  {
    released := p.target != null;
    if p.target != null {
      p.target.releaseCount := p.target.releaseCount + 1;
      p.target := null;
    }
  }

  /** Calling SafeRelease twice has the effect of calling it once: the second call
      finds a null pointer and does nothing. */
  method SafeReleaseTwice(p: InterfacePointer)
    modifies p, p.target
    ensures p.target == null
    ensures old(p.target) != null ==> old(p.target).releaseCount == old(p.target.releaseCount) + 1
  {
    var first := SafeRelease(p);
    var second := SafeRelease(p);
    assert !second;
  }
}
