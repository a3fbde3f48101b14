/**
 * The `--slice` decision of the script's entry point: which axis the
 * camera is moved along, which axis is up, and the slice normal.
 */
module CommandLine {
  import opened Wrappers
  import opened Camera

  /**
   * What the entry point hands to the animator for `cam_shift`,
   * `cam_view_up` and `slice_normal`: either the three settings or, when
   * no branch matched, Python's `False` for all three.
   */
  datatype SliceArgs = SliceArgs(camShift: int, camViewUp: int, normal: seq<int>) | AllFalse

  /** The setting used when `--slice` is not given (a slice normal to y). */
  const YSlice := SliceArgs(1, 2, [0, 1, 0])

  /** The setting for `--slice=z`. */
  const ZSlice := SliceArgs(2, 1, [0, 0, 1])

  /** Python's truthiness of the docopt value: None and "" are false. */
  predicate Given(slice: Option<string>) {
    slice.Some? && slice.value != ""
  }

  /** The entry point's `--slice` mapping, as the code has it. */
  function SliceOptions(slice: Option<string>): SliceArgs {
    if !Given(slice) then YSlice
    else if slice.value == "z" then ZSlice
    else AllFalse
  }

  /**
   * The `--slice` mapping the usage text documents ("default=y"): an
   * explicit `y` selects the same setting as no option at all.
   */
  function DocumentedSliceOptions(slice: Option<string>): SliceArgs {
    if !Given(slice) || slice.value == "y" then YSlice
    else if slice.value == "z" then ZSlice
    else AllFalse
  }

  /**
   * The axes `setup_camera` indexes with: Python's `False` indexes a list
   * as 0, so the fall-through moves the camera along x with x as up.
   */
  function CameraAxes(a: SliceArgs): (int, int) {
    match a
    case AllFalse => (0, 0)
    case SliceArgs(shift, up, _) => (shift, up)
  }

  /**
   * As written: no `--slice` gives shift 1, up 2, normal y; `z` gives
   * shift 2, up 1, normal z; every other value, `y` included, leaves all
   * three False.
   */
  lemma SliceDecisionTable(v: string)
    ensures SliceOptions(None) == SliceArgs(1, 2, [0, 1, 0])
    ensures SliceOptions(Some("")) == SliceOptions(None)
    ensures SliceOptions(Some("z")) == SliceArgs(2, 1, [0, 0, 1])
    ensures v != "" && v != "z" ==> SliceOptions(Some(v)) == AllFalse
  {
  }

  /**
   * Whatever `--slice` is, `setup_camera` can index with the axes it gets
   * (no `IndexError`): a selected setting moves the camera along an axis
   * other than its up axis, while the fall-through moves it along x with
   * x as the up axis.
   */
  lemma SliceAxesIndexable(slice: Option<string>)
    ensures PyIndex(CameraAxes(SliceOptions(slice)).0, 3).Some?
    ensures PyIndex(CameraAxes(SliceOptions(slice)).1, 3).Some?
    ensures SliceOptions(slice).SliceArgs? ==>
              PyIndex(CameraAxes(SliceOptions(slice)).0, 3) != PyIndex(CameraAxes(SliceOptions(slice)).1, 3)
    ensures SliceOptions(slice).AllFalse? ==>
              PyIndex(CameraAxes(SliceOptions(slice)).0, 3) == Some(0) && PyIndex(CameraAxes(SliceOptions(slice)).1, 3) == Some(0)
  {
  }

  /**
   * The discrepancy: `--slice=y` does not select the documented default;
   * it falls through, and if the view accepts a slice normal of `False`
   * and construction reaches `setup_camera`, the camera's up axis then
   * coincides with the axis it is moved along.
   */
  lemma ExplicitYFallsThrough()
    ensures SliceOptions(Some("y")) == AllFalse
    ensures SliceOptions(Some("y")) != SliceOptions(None)
    ensures CameraAxes(SliceOptions(Some("y"))).0 == CameraAxes(SliceOptions(Some("y"))).1
  {
  }

  /**
   * The documented mapping: `y` is the default, the other values behave
   * as in the code, and every value that selects a setting moves the
   * camera along an axis other than its up axis.
   */
  lemma DocumentedYIsDefault(v: string)
    ensures DocumentedSliceOptions(Some("y")) == DocumentedSliceOptions(None)
    ensures v != "y" ==> DocumentedSliceOptions(Some(v)) == SliceOptions(Some(v))
    ensures DocumentedSliceOptions(Some(v)).SliceArgs? ==>
              CameraAxes(DocumentedSliceOptions(Some(v))).0 != CameraAxes(DocumentedSliceOptions(Some(v))).1
  {
  }
}
