/** The flag that weak pointers share: valid until its factory invalidates it, once. */
module WeakPtrFlags {

  class WeakPtrFlag {
    var isValid: bool
    ghost var invalidations: nat

    constructor ()
      ensures isValid && invalidations == 0
    {
      isValid, invalidations := true, 0;
    }

    method Invalidate()
      requires isValid
      modifies this
      ensures !isValid && invalidations == old(invalidations) + 1
    {
      isValid, invalidations := false, invalidations + 1;
    }
  }
}
