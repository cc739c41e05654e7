/** One named integer index of a multi-dimensional array, bound to a slider. */
module DimVars {

  /** The slider widget, reduced to the integer position the user moves it to. */
  class Slider {
    var val: int

    constructor (val: int)
      ensures this.val == val
    {
      this.val := val;
    }
  }

  class DimVar {
    const name: string
    /** Exclusive bounds for values stored through SetValue. */
    const vmin: int
    const vmax: int
    var value: int
    /** The flag read by changed(): set by the last GetChanged. */
    var changed: bool
    var slider: Slider?

    constructor (name: string, vmin: int, vmax: int)
      ensures this.name == name && this.vmin == vmin && this.vmax == vmax
      ensures value == 0 && !changed && slider == null
    {
      this.name := name;
      this.vmin := vmin;
      this.vmax := vmax;
      value := 0;
      slider := null;
      changed := false;
    }

    /** The value setter: a value outside the open interval (vmin, vmax) is refused. */
    method SetValue(v: int)
      modifies this`value
      ensures value == (if vmin < v < vmax then v else old(value))
    {
      if !(vmin < v < vmax) {
        return;
      } else {
        value := v;
      }
    }

    method AddSlider(s: Slider)
      modifies this`slider
      ensures slider == s
    {
      slider := s;
    }

    /** Copies the slider position into the value, bypassing the range check,
        and records whether it differed. */
    method GetChanged()
      requires slider != null
      modifies this`value, this`changed
      ensures value == slider.val
      ensures changed == (slider.val != old(value))
    {
      if slider.val != value {
        value := slider.val;
        changed := true;
      } else {
        changed := false;
      }
    }
  }

  /** Two refreshes with the slider left where it is: the first reports whether the
      slider had moved, the second always reports no change and keeps the value. */
  method RefreshTwice(v: DimVar) returns (first: bool, second: bool)
    requires v.slider != null
    modifies v
    ensures v.slider == old(v.slider)
    ensures first == (v.slider.val != old(v.value))
    ensures !second && !v.changed
    ensures v.value == v.slider.val
  {
    v.GetChanged();
    first := v.changed;
    var settled := v.value;
    v.GetChanged();
    assert v.value == settled;
    second := v.changed;
  }
}
