/** Message parts whose copying moves them (Part.hpp). */
module Parts {
  import opened Frames

  class Part {
    var msg: Content
    var valid: bool

    /** An empty part, owned unless stated otherwise. */
    constructor (valid: bool := true)
      ensures msg == [] && this.valid == valid
    {
      msg, this.valid := [], valid;
    }

    /** A part initialised with data. */
    constructor Of(data: Content)
      ensures msg == data && valid
    {
      msg, valid := data, true;
    }

    /** The copy constructor: ownership passes to the copy. */
    constructor Moved(src: Part)
      modifies src
      ensures Slot() == old(src.Slot()) && !src.valid
      ensures msg == (if old(src.valid) then old(src.msg) else [])
    {
      msg, valid := [], src.valid;
      new;
      Move(src);
    }

    function Slot(): (s: Slot)
      reads this
    {
      if valid then Some(msg) else None
    }

    method MarkInvalid()
      modifies this`valid
      ensures !valid
    {
      valid := false;
    }

    /** Takes over the content of `src`; an invalid source invalidates the target. */
    method Move(src: Part)
      requires src != this
      modifies this, src
      ensures Slot() == old(src.Slot()) && !src.valid
      ensures msg == (if old(src.valid) then old(src.msg) else old(msg))
      ensures src.msg == (if old(src.valid) then [] else old(src.msg))
    {
      if src.valid {
        msg, src.msg := src.msg, [];
        valid := true;
        src.valid := false;
      } else {
        valid := false;
      }
    }

    /** Duplicates `src`; an invalid source leaves the target as it was. */
    method Copy(src: Part)
      modifies this
      ensures src != this ==> src.Slot() == old(src.Slot()) && src.msg == old(src.msg)
      ensures Slot() == if old(src.valid) then old(src.Slot()) else old(Slot())
    {
      if src.valid {
        msg, valid := src.msg, true;
      }
    }
  }
}
