/** The IF bit of EFLAGS and the save/restore discipline of kernel/interrupt.c. */
module Interrupts {
  class Eflags {
    var intr: bool

    constructor (on: bool)
      ensures intr == on
    {
      intr := on;
    }

    method Disable() returns (oldStatus: bool)
      modifies this
      ensures oldStatus == old(intr) && !intr
    {
      oldStatus := intr;
      if oldStatus { intr := false; }
    }

    method Enable() returns (oldStatus: bool)
      modifies this
      ensures oldStatus == old(intr) && intr
    {
      oldStatus := intr;
      if !oldStatus { intr := true; }
    }

    method SetStatus(status: bool) returns (oldStatus: bool)
      modifies this
      ensures oldStatus == old(intr) && intr == status
    {
      if status { oldStatus := Enable(); } else { oldStatus := Disable(); }
    }
  }
}
