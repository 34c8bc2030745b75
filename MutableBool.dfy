/** `MutableBool`: a boolean cell that can be written either way. */
module MutableBools {

  class MutableBool {
    var value: bool

    /** `new MutableBool()`: false. */
    constructor ()
      ensures !value
    {
      value := false;
    }

    /** `new MutableBool(value)`. */
    constructor WithValue(value: bool)
      ensures this.value == value
    {
      this.value := value;
    }

    /** Reads the cell without changing it. */
    method Value() returns (v: bool)
      ensures v == value
    {
      v := value;
    }

    /** Writes the cell; unlike a `Flag`, it can be set back to false. */
    method SetValue(value: bool)
      modifies this
      ensures this.value == value
    {
      this.value := value;
    }
  }
}
