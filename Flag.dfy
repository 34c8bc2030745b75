/** `Flag`: a boolean cell that can be marked once and is never cleared. */
module Flags {

  class Flag {
    var value: bool

    /** `new Flag()`: not set. */
    constructor ()
      ensures !value
    {
      value := false;
    }

    /** `Flag.create()`. */
    static method Create() returns (flag: Flag)
      ensures fresh(flag) && !flag.value
    {
      flag := new Flag();
    }

    /** Marks the flag; marking again changes nothing, and nothing unmarks it. */
    method Mark()
      modifies this
      ensures value
    {
      value := true;
    }

    /** Reads the flag without changing it. */
    method IsSet() returns (set_: bool)
      ensures set_ == value
    {
      set_ := value;
    }
  }
}
