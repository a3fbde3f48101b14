# OFsnappy: a verified model of the snapshot animator

`OFsnappy.py` renders slices of an OpenFOAM case with ParaView and writes
one PNG per field, vector component and timestep into the case's `anim`
folder. This project models the bookkeeping of that script (colour-limit
tables, timesteps, camera arithmetic, file names and `--slice`), leaving
out the ParaView calls and I/O, and proves properties of it:

- **Colour-limit tables** (`LimitTable`). A configuration entry is `"auto"`,
  a range `[lo, hi]` or a list of ranges, one per component.
  `attachToDict` adds a `"Mean"` twin for each scalar field.
  `display_scalar` and `display_vector_field` resolve an `"auto"` entry
  from the reader's range at the current time and store the result back
  in the table.
- **Camera** (`Camera`). The box centre, the offset of 1.5·k times the
  largest extent (for a factor k ≥ 0) added on the `cam_shift` axis, and
  `setup_camera`'s focal point, position and up vector, including Python's
  negative and out-of-range indexing.
- **Timesteps** (`TimeSteps`). `set_times` chooses the reader times
  newest first, either all of them or the first `--nlatest`.
  `write_all_fields` numbers the frames `total_times - time_nr`.
- **Image names** (`ImageNames`). `"{path}/anim/{name}_{component}_{frame:zfill(4)}_({time}).png"`.
  `str`, `zfill` and reading the frame field back as a number are
  written out on characters.
- **The display loop** (`Animation` as functions, `AnimatorClass` as the
  `animator` object). One `write_all_fields` run goes over a deep copy of
  each table, calls a display for each entry and swallows its
  exceptions. An existing file makes `write_image` raise.
- **The command line** (`CommandLine`). The `--slice` mapping of the
  entry point.

The files:

- `wrappers.dfy`: `Option`.
- `texts.dfy`: prefix and suffix cancellation on strings.
- `imagenames.dfy`, `timesteps.dfy`, `camera.dfy`, `commandline.dfy`,
  `limittable.dfy`: pure functions and their lemmas.
- `animation.dfy`: the display calls and one run, as functions on a `Snapshot` value.
- `animator.dfy`: the class `Animator`. Its methods update its fields in
  place and are proved equal to the functions of `animation.dfy`.

Inputs the model takes as parameters:

- The reader's time values are opaque strings, and `ViewTime` is the same string.
- The field ranges at a time are `cellData(time)`: fields present mapped to `GetRange()`.
- The camera's `arctan(alpha·90/3.1415)` is a real number `k`.
- The order of dictionary iteration is an argument.
- The set of files present in `anim` before the run is an argument.

## Model

| member | source | states |
|---|---|---|
| LimitTable.Twins | OFsnappy.py:68-70 | the twins `k + suffix` added for a set of visited keys, those whose twin is not an original key, each with its key's value |
| LimitTable.WithTwins | OFsnappy.py:67-70 | the table after `attachToDict`: the original table plus the twins of all its keys |
| LimitTable.AttachToDict | OFsnappy.py:67-70 | the loop over the key snapshot yields exactly the table with its twins (`WithTwins`), whatever order the keys are visited in |
| LimitTable.TwinsAdded | OFsnappy.py:67-70 | every original key keeps its value and gains a twin `k + suffix`; a new twin takes the value of its key; no other key appears |
| LimitTable.NoTwinOfTwin | OFsnappy.py:68-70 | the key snapshot stops a second generation: a new twin `kMean` does not itself get `kMeanMean` |
| LimitTable.Truthy | OFsnappy.py:246 | Python's truthiness of a table entry, as `self.scalars.get(name, False)` tests it (and line 228 for vectors): only the empty list is false |
| LimitTable.ScalarColour | OFsnappy.py:241-249 | the range `display_scalar` draws with: the field's range for `"auto"` (none if the field is missing), the entry's own range, and none for a list |
| LimitTable.ScalarEntry | OFsnappy.py:241-245 | the entry `display_scalar` leaves: the field's range in place of `"auto"` when the field exists, otherwise unchanged |
| LimitTable.VectorColours | OFsnappy.py:217-233 | the ranges `display_vector_field` draws components with: three copies of the field's range for `"auto"`, the list's ranges for a list, none for a single range or a missing field |
| LimitTable.VectorEntry | OFsnappy.py:223-227 | the entry `display_vector_field` leaves: `[r, r, r]` in place of `"auto"` when the field exists, otherwise unchanged |
| LimitTable.ComponentCount | OFsnappy.py:217 | `ncomps`: 3 for `"auto"`, else the entry's length |
| LimitTable.ScalarResolvesOnce | OFsnappy.py:239-250 | a resolved scalar entry holds the field's range and draws with that range at every later time, without being resolved again |
| LimitTable.ScalarEntryChanges | OFsnappy.py:241-247 | the scalar entry changes iff it is `"auto"` and the field exists; a missing field raises and leaves `"auto"` |
| LimitTable.VectorResolvesOnce | OFsnappy.py:216-229 | a vector field draws `ncomps` components; `"auto"` becomes `[r, r, r]` and is reused unchanged later |
| LimitTable.VectorEntryHoldsColours | OFsnappy.py:223-229 | after a vector call that draws, the entry lists exactly the ranges used for the components |
| LimitTable.VectorEntryChanges | OFsnappy.py:223-228 | the vector entry changes iff it is `"auto"` and the field exists; a missing field raises and leaves `"auto"` |
| Camera.DeltaX | OFsnappy.py:46 | `delta_x = abs(bds[1] - bds[0])`, never negative |
| Camera.DeltaY | OFsnappy.py:45 | `delta_y = abs(bds[3] - bds[2])`, never negative |
| Camera.DeltaZ | OFsnappy.py:44 | `delta_z = abs(bds[4] - bds[5])`, never negative |
| Camera.OffsetOf | OFsnappy.py:47-48 | `1.5 * max(g(delta_x), g(delta_z), g(delta_y))` with `g(delta) = k * delta` |
| Camera.CameraOffset | OFsnappy.py:43-49 | `camera_offset` of a box: `OffsetOf` over its three extents |
| Camera.CenterCamera | OFsnappy.py:52-57 | three coordinates, each equidistant from the box's bounds on its axis and between them |
| Camera.OffsetBounds | OFsnappy.py:43-49 | the offset is at least 1.5·k times every extent, non-negative for k ≥ 0, and zero for a point box |
| Camera.OffsetClosedForm | OFsnappy.py:43-49 | the offset is 1.5·k times the largest extent for k ≥ 0 and times the smallest for k < 0 |
| Camera.OffsetScales | OFsnappy.py:43-49 | extents s > 0 times as large give an offset s times as large |
| Camera.ScaleDeltas | OFsnappy.py:44-46 | multiplying the box by s > 0 multiplies every extent by s |
| Camera.OffsetTranslationInvariant | OFsnappy.py:43-49 | moving the box leaves the offset unchanged |
| Camera.OffsetMonotoneInFactor | OFsnappy.py:47-48 | a larger factor never gives a smaller offset |
| Camera.OffsetMonotoneInBox | OFsnappy.py:43-49 | for k ≥ 0, a box no wider on any axis never gives a larger offset |
| Camera.OffsetMonotoneInAngle | OFsnappy.py:47 | for any non-decreasing arctan, a wider view angle never gives a smaller offset |
| Camera.PyIndex | OFsnappy.py:185 | Python list indexing: defined iff -n ≤ i < n, and then i or n + i |
| Camera.SetupCamera | OFsnappy.py:179-188 | the focal point is the box centre; the position is the centre moved by the offset on axis `cam_shift` only; the up vector is 1 on axis `cam_view_up` and 0 elsewhere; an index out of range raises |
| TimeSteps.Reverse | OFsnappy.py:156 | `s[::-1]`: the same length, with element i equal to element n-1-i |
| TimeSteps.SliceLength | OFsnappy.py:156 | the number of elements Python's `s[:k]` keeps of a sequence of length n, for k of either sign |
| TimeSteps.SliceTo | OFsnappy.py:156 | `s[:k]`: a prefix of Python's length for k of either sign |
| TimeSteps.SetTimes | OFsnappy.py:152-156 | `total_times` is the reader's count; the number of times kept; the j-th kept time is the j-th newest reader time |
| TimeSteps.LatestTimes | OFsnappy.py:156 | without `--all`, `ntimes ≥ 0` keeps the newest min(ntimes, n) times, reversed; the default 1 keeps only the latest |
| TimeSteps.AllTimes | OFsnappy.py:156 | `--all` keeps every time newest first, whatever `ntimes` is; without `--all`, a negative `ntimes` drops that many of the oldest |
| TimeSteps.FrameNumber | OFsnappy.py:197 | `frame_nr = total_times - time_nr` |
| TimeSteps.FrameNumbering | OFsnappy.py:195-197 | frame `total_times - time_nr` lies in 1..total_times, is the reader position of its time, and strictly decreases along the loop |
| ImageNames.NatToString | OFsnappy.py:262 | `str(n)`: nonempty digits with no leading zero |
| ImageNames.IntToString | OFsnappy.py:260-262 | `str(i)` starts with `-` iff i < 0 and is all digits otherwise |
| ImageNames.ZFill | OFsnappy.py:262 | `zfill(w)`: the length is max(len, w), zeros are padded after a sign, and a long enough string is kept as it is |
| ImageNames.ParseNatToString | OFsnappy.py:262 | reading `str(n)` back as digits gives n |
| ImageNames.FrameFieldReadsBack | OFsnappy.py:262 | the zero-padded frame field is all digits and reads back as the frame number |
| ImageNames.FrameFieldWidth | OFsnappy.py:262 | the field has exactly 4 characters iff frame < 10000, is plain `str` above that, and always ends in `str(frame)` |
| ImageNames.FrameFieldInjective | OFsnappy.py:262 | distinct frames give distinct frame fields |
| ImageNames.FrameField | OFsnappy.py:262 | `str(frame_nr).zfill(4)` |
| ImageNames.ImageName | OFsnappy.py:260-264 | the `write_image` file name `path/anim/name_component_frame_(time).png` |
| ImageNames.DistinctFramesDistinctNames | OFsnappy.py:260-264 | two frames of the same field, component and time never share a file name |
| ImageNames.DistinctComponentsDistinctNames | OFsnappy.py:260-264 | two components of the same field, frame and time never share a file name |
| ImageNames.DistinctTimesDistinctNames | OFsnappy.py:260-264 | two view times of the same field, component and frame never share a file name |
| Animation.FileName | OFsnappy.py:260-264 | the file an image is written to, by `ImageName` |
| Animation.FrameAt | OFsnappy.py:195-197 | timestep i's path, frame number `FrameNumber(total_times, i)`, selected time and field ranges |
| Animation.WriteShot | OFsnappy.py:259-270 | `write_image`: an existing file makes it raise with nothing written; otherwise the file is added and the image recorded |
| Animation.ScalarDisplay | OFsnappy.py:239-250 | the scalar table changes only at `name`, to the resolved entry; the vector table is untouched |
| Animation.ComponentWrites | OFsnappy.py:218-237 | the component loop leaves both tables untouched |
| Animation.VectorDisplay | OFsnappy.py:216-237 | the vector table changes only at `name`, to the resolved entry; the scalar table is untouched |
| Animation.VectorPass | OFsnappy.py:200-205 | the vector loop of a timestep keeps the vector keys and leaves the scalar table alone |
| Animation.ScalarPass | OFsnappy.py:206-211 | the scalar loop of a timestep keeps the scalar keys and leaves the vector table alone |
| Animation.Step | OFsnappy.py:195-211 | a timestep keeps the key sets of both tables |
| Animation.Run | OFsnappy.py:194-214 | the run keeps the key sets of both tables |
| Animation.Planned | OFsnappy.py:218-237 | one planned image per component |
| Animation.PlannedAt | OFsnappy.py:218-237 | planned image j is component j at the frame's number and time, drawn with range j |
| Animation.ComponentWritesShots | OFsnappy.py:218-237 | the component loop keeps the earlier images and appends a prefix of the planned images, all of them unless a write raises |
| Animation.ComponentWritesStop | OFsnappy.py:218-237 | once a component raises, no later component is drawn |
| Animation.ComponentFilesDistinct | OFsnappy.py:260-264 | the files of two different components of one frame differ |
| Animation.NamesBefore | OFsnappy.py:218-237 | the file of component c is not among the files of the components before it |
| Animation.ComponentWritesCompletes | OFsnappy.py:218-237 | the component loop completes iff none of the component files exists yet, and then adds exactly those files |
| Animation.FirstRange | OFsnappy.py:195-227 | the range autoscaling finds for a field within the first i timesteps: the first one where the field exists, or none |
| Animation.FirstRangeIsFirst | OFsnappy.py:195-227 | the autoscale range is none iff the field is absent at every timestep so far, and otherwise the reader's range at the earliest timestep where it exists |
| Animation.ScalarAutoscaledOnce | OFsnappy.py:194-245 | an `"auto"` scalar stays `"auto"` until the first timestep where its field exists and from then on holds that range |
| Animation.ScalarExplicitKept | OFsnappy.py:206-247 | a scalar entry that is not `"auto"` is never changed by the run |
| Animation.VectorAutoscaledOnce | OFsnappy.py:194-227 | an `"auto"` vector stays `"auto"` until its field first exists and from then on holds `[r, r, r]` for that range |
| Animation.VectorExplicitKept | OFsnappy.py:200-229 | a vector entry that is not `"auto"` is never changed by the run |
| Animation.ScalarColourAtStep | OFsnappy.py:241-248 | at timestep i an `"auto"` scalar is drawn with the first range found up to and including i |
| Animation.VectorColoursAtStep | OFsnappy.py:217-233 | at timestep i an `"auto"` vector draws three components, each with the first range found up to and including i |
| Animation.ScalarDisplayAtStep | OFsnappy.py:239-250 | at timestep i an `"auto"` scalar completes exactly when a range is known and its file (component 0, frame `total_times - i`, time i) does not exist; it then adds that one file and image with that range, and otherwise raises leaving images and files as they were |
| Animation.VectorDisplayAtStep | OFsnappy.py:216-237 | at timestep i an `"auto"` vector appends up to three images, each a planned component with that range; it completes exactly when a range is known and none of the three component files (frame `total_times - i`, time i) exists, and then adds exactly those three files; with no range known it raises leaving everything as it was |
| Animation.WriteShotRecorded | OFsnappy.py:259-270 | one write keeps the images pairwise distinct, in the folder and disjoint from the files that were there before |
| Animation.RunNeverOverwrites | OFsnappy.py:194-270 | over a whole run, no image is written twice and no existing file is overwritten |
| AnimatorClass.DistinctElements | OFsnappy.py:201 | an order without repeats has as many elements as entries |
| AnimatorClass.EnumeratesExactly | OFsnappy.py:201 | an iteration order of a table visits exactly its keys, each once |
| AnimatorClass.Animator.constructor | OFsnappy.py:110-126 | the scalar table gets its `"Mean"` twins, the vector table is taken as configured, and the times are `set_times`' selection |
| AnimatorClass.Animator.WriteImage | OFsnappy.py:259-271 | the object's files and images after the call are exactly those of `WriteShot` for the file named from path, field, component, frame and view time |
| AnimatorClass.Animator.DisplayScalar | OFsnappy.py:239-250 | the new state and the raised-or-not flag are those of `ScalarDisplay` |
| AnimatorClass.Animator.DisplayVectorField | OFsnappy.py:216-237 | the new state and the raised-or-not flag are those of `VectorDisplay` |
| AnimatorClass.Animator.DisplayVectorFields | OFsnappy.py:200-205 | the vector loop over the deep copy leaves the state `VectorPass` gives |
| AnimatorClass.Animator.DisplayScalars | OFsnappy.py:206-211 | the scalar loop over the deep copy leaves the state `ScalarPass` gives |
| AnimatorClass.Animator.WriteAllFields | OFsnappy.py:194-214 | the final state is `Run` over every selected time; the last frame number and view time are those of the last time |
| CommandLine.SliceOptions | OFsnappy.py:284-298 | the entry point's mapping as written: shift 1, up 2, normal y without `--slice`; shift 2, up 1, normal z for `z`; all False otherwise |
| CommandLine.DocumentedSliceOptions | OFsnappy.py:291-298 | the mapping the usage text documents (line 12): `y` as well as no option gives the default setting |
| CommandLine.SliceAxesIndexable | OFsnappy.py:284-298 | every `--slice` value gives axes `setup_camera` can index with; a selected setting moves the camera along an axis other than its up axis; the fall-through's `False` indexes axis 0 for both |
| CommandLine.SliceDecisionTable | OFsnappy.py:284-298 | no `--slice` gives shift 1, up 2, normal y; `z` gives shift 2, up 1, normal z; every other value leaves all three False |
| CommandLine.ExplicitYFallsThrough | OFsnappy.py:291-298 | against the usage text's `default=y` (line 12), `--slice=y` falls through to all-False, unlike the default, and the camera axes it gives coincide (shift axis = up axis) |
| CommandLine.DocumentedYIsDefault | OFsnappy.py:291-298 | with `y` treated as the documented default, every value that selects a setting moves the camera off its up axis |

## Left out

- ParaView: the reader, the render view, the slice, the lookup tables,
  `WriteImage` rendering and `Connect`. A written image is recorded by its
  `Image` (which names its file through `FileName`) and the colour range of
  its lookup table.
- `np.arctan` and the view angle: `camera_offset` takes `k = arctan(alpha·90/3.1415)`
  as a real parameter. Floating point is modelled as exact reals.
- `ViewTime` printing: a time value is an opaque string, used for `ViewTime`
  and `str.format` alike.
- `read_config` (JSON), docopt, `os.getcwd`, `--clean`, creating `anim`,
  `convert_to_gif`, `field_names`, `set_up_time_annotator`, `make_color_map` and
  every `print`. These are I/O or ParaView calls.
- `has_changed`, `set_field`, `decomposed`, `interpolate`, `autoscaled`,
  `slice_normal` (only passed to ParaView), and the
  `--nlatest`/`--all` conflict message, which only prints.
- Animator.constructor: does not call `SetupCamera`. The bounds and view
  angle come from ParaView; `Camera.SetupCamera` models that call on its own.
- `update` and `stop`: the constructor never stores `update`, so
  `os.path.exists(image_name) and self.update` raises `AttributeError`
  whenever the file exists. The model treats that as a raising call that
  writes nothing. `stop` is therefore never set, and the `break` is not modelled.
- Dictionary iteration order: the order of `iteritems()` over each deep
  copy is an argument (`vectorOrder`, `scalarOrder`) that lists each key
  once. `attachToDict`'s order does not change its result, and the model
  visits keys in an arbitrary order.
- `deepcopy`: modelled as a value copy, since the tables are values in the model.
- LimitTable.AttachToDict: returns the grown table, and the constructor
  stores it, instead of mutating the dictionary argument in place.
- LimitTable.ScalarColour: a list of ranges as a scalar entry is taken to
  raise in the lookup-table call. ParaView's own behaviour with such
  arguments is not part of this model.
- Python's `False` as `cam_shift` or `cam_view_up` is taken to index as 0 (`CommandLine.CameraAxes`);
  what ParaView does with `False` as the slice normal (line 172) is not modelled.
  No other non-integer index is modelled.
- Field names are taken to be ASCII, as OpenFOAM's are. A non-ASCII key
  (`json.load` gives unicode keys) would make `str(name)` in `set_field`
  (line 254) or the byte-string format of the file name (line 260) raise
  before the entry is resolved, leaving it `"auto"` and writing no image;
  the model's string keys never raise there.

## Findings

| source | as written | input that shows it | evidently intended | confidence | as-written member | corrected member |
|---|---|---|---|---|---|---|
| OFsnappy.py:291-298 | only a missing `--slice` or `--slice=z` sets the camera; any other value, `y` included, leaves `cam_shift`, `cam_view_up` and `slice_normal` False; if ParaView accepts `False` as the slice normal (line 172) and construction reaches `setup_camera`, the camera then moves along x with x as its up axis | `--slice=y` | `--slice=y` behaves like the default the usage text documents at line 12 (shift 1, up 2, normal y) | not executed | CommandLine.ExplicitYFallsThrough | CommandLine.DocumentedYIsDefault |
