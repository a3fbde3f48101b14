/**
 * What `animator.write_all_fields` does to the limit tables and to the
 * `anim` folder, as functions of the state before: one display call, one
 * pass over a table, one timestep and the whole run. Fields are visited
 * in a given order (the iteration order of the Python dict).
 */
module Animation {
  import opened Wrappers
  import opened LimitTable
  import opened ImageNames
  import opened TimeSteps

  /** What names an image: case path, field, component, frame number and view time. */
  datatype Image = Image(path: string, name: string, component: int, frame: int, time: string)

  /** The image's file, as `write_image` names it. */
  function FileName(im: Image): string {
    ImageName(im.path, im.name, im.component, im.frame, im.time)
  }

  /** One written image and the colour range of its lookup table. */
  datatype Shot = Shot(image: Image, span: Span)

  /**
   * The state a display call reads and changes: the two limit tables, the
   * image files present in the folder, and the images written so far.
   */
  datatype Snapshot = Snapshot(
    scalars: map<string, Limits>,
    vectors: map<string, Limits>,
    files: set<string>,
    shots: seq<Shot>)

  /** The state after a call, and whether it returned (false: it raised). */
  datatype Outcome = Outcome(after: Snapshot, completed: bool)

  /** What one timestep fixes: the case path, `frame_nr`, `ViewTime` and the reader's field ranges. */
  datatype Frame = Frame(path: string, number: int, time: string, data: map<string, Span>)

  /**
   * A whole run: the case path, `total_times`, the selected times, the
   * field ranges the reader gives at each time, and the order in which the
   * vector and scalar tables are iterated.
   */
  datatype Job = Job(
    path: string,
    total: nat,
    times: seq<string>,
    cellData: string -> map<string, Span>,
    vectorOrder: seq<string>,
    scalarOrder: seq<string>)

  /** The frame of loop position i: `frame_nr = total_times - i` and the i-th selected time. */
  function FrameAt(job: Job, i: nat): Frame
    requires i < |job.times|
  {
    Frame(job.path, FrameNumber(job.total, i), job.times[i], job.cellData(job.times[i]))
  }

  /**
   * `write_image`: a file that already exists is not written; the check
   * reads `self.update`, which the constructor never sets, so the call
   * raises instead. Otherwise the image is written.
   */
  function WriteShot(s: Snapshot, image: Image, span: Span): Outcome {
    var file := FileName(image);
    if file in s.files then Outcome(s, false)
    else Outcome(s.(files := s.files + {file}, shots := s.shots + [Shot(image, span)]), true)
  }

  /** `display_scalar(name, lim)` with `lim` the table's entry. */
  function ScalarDisplay(s: Snapshot, f: Frame, name: string): (o: Outcome)
    requires name in s.scalars
    ensures o.after.scalars == s.scalars[name := ScalarEntry(s.scalars[name], name, f.data)]
    ensures o.after.vectors == s.vectors
  {
    var lim := s.scalars[name];
    match ScalarColour(lim, name, f.data)
    case None => Outcome(s, false)
    case Some(span) =>
      WriteShot(s.(scalars := s.scalars[name := ScalarEntry(lim, name, f.data)]),
                Image(f.path, name, 0, f.number, f.time), span)
  }

  /**
   * The component loop of `display_vector_field` over the ranges `spans`:
   * component j is written with `spans[j]`, and the first component that
   * raises ends the call.
   */
  function ComponentWrites(s: Snapshot, f: Frame, name: string, spans: seq<Span>): (o: Outcome)
    ensures o.after.scalars == s.scalars && o.after.vectors == s.vectors
  {
    if spans == [] then Outcome(s, true)
    else
      var j := |spans| - 1;
      var o := ComponentWrites(s, f, name, spans[..j]);
      if !o.completed then o
      else WriteShot(o.after, Image(f.path, name, j, f.number, f.time), spans[j])
  }

  /** `display_vector_field(name, lim)` with `lim` the table's entry. */
  function VectorDisplay(s: Snapshot, f: Frame, name: string): (o: Outcome)
    requires name in s.vectors
    ensures o.after.vectors == s.vectors[name := VectorEntry(s.vectors[name], name, f.data)]
    ensures o.after.scalars == s.scalars
  {
    var lim := s.vectors[name];
    match VectorColours(lim, name, f.data)
    case None => Outcome(s, false)
    case Some(spans) =>
      ComponentWrites(s.(vectors := s.vectors[name := VectorEntry(lim, name, f.data)]), f, name, spans)
  }

  /** The `vectors` loop of one timestep, over the first |order| fields; exceptions are swallowed. */
  function VectorPass(s: Snapshot, f: Frame, order: seq<string>): (r: Snapshot)
    ensures r.vectors.Keys == s.vectors.Keys && r.scalars == s.scalars
  {
    if order == [] then s
    else
      var p := VectorPass(s, f, order[..|order| - 1]);
      var name := order[|order| - 1];
      if name in p.vectors then VectorDisplay(p, f, name).after else p
  }

  /** The `scalars` loop of one timestep, over the first |order| fields; exceptions are swallowed. */
  function ScalarPass(s: Snapshot, f: Frame, order: seq<string>): (r: Snapshot)
    ensures r.scalars.Keys == s.scalars.Keys && r.vectors == s.vectors
  {
    if order == [] then s
    else
      var p := ScalarPass(s, f, order[..|order| - 1]);
      var name := order[|order| - 1];
      if name in p.scalars then ScalarDisplay(p, f, name).after else p
  }

  /** One timestep of `write_all_fields`: all vector fields, then all scalar fields. */
  function Step(s: Snapshot, f: Frame, job: Job): (r: Snapshot)
    ensures r.scalars.Keys == s.scalars.Keys && r.vectors.Keys == s.vectors.Keys
  {
    ScalarPass(VectorPass(s, f, job.vectorOrder), f, job.scalarOrder)
  }

  /** The state after the first i timesteps of `write_all_fields`. */
  function Run(s: Snapshot, job: Job, i: nat): (r: Snapshot)
    requires i <= |job.times|
    ensures r.scalars.Keys == s.scalars.Keys && r.vectors.Keys == s.vectors.Keys
  {
    if i == 0 then s
    else Step(Run(s, job, i - 1), FrameAt(job, i - 1), job)
  }

  /**
   * The images `display_vector_field` means to write over the ranges
   * `spans`, one per component, in order.
   */
  function Planned(f: Frame, name: string, spans: seq<Span>): (p: seq<Shot>)
    ensures |p| == |spans|
  {
    if spans == [] then []
    else
      var j := |spans| - 1;
      Planned(f, name, spans[..j]) + [Shot(Image(f.path, name, j, f.number, f.time), spans[j])]
  }

  /** Planned image j is component j, file `name_j_<frame>_(<time>)`, drawn with `spans[j]`. */
  lemma {:induction false} PlannedAt(f: Frame, name: string, spans: seq<Span>, j: nat)
    requires j < |spans|
    ensures Planned(f, name, spans)[j] == Shot(Image(f.path, name, j, f.number, f.time), spans[j])
  {
    var last := |spans| - 1;
    var init := Planned(f, name, spans[..last]);
    assert Planned(f, name, spans) == init + [Shot(Image(f.path, name, last, f.number, f.time), spans[last])];
    if j < last {
      PlannedAt(f, name, spans[..last], j);
      assert spans[..last][j] == spans[j];
    }
  }

  /** One more timestep of the run. */
  lemma RunNext(s: Snapshot, job: Job, i: nat)
    requires i < |job.times|
    ensures Run(s, job, i + 1) == Step(Run(s, job, i), FrameAt(job, i), job)
  {
  }

  /**
   * The component loop keeps the images before it and appends a prefix of
   * the planned images; all of them unless a component raises.
   */
  lemma {:induction false} ComponentWritesShots(s: Snapshot, f: Frame, name: string, spans: seq<Span>)
    ensures var o := ComponentWrites(s, f, name, spans);
      |s.shots| <= |o.after.shots| <= |s.shots| + |spans| &&
      o.after.shots == s.shots + Planned(f, name, spans)[..|o.after.shots| - |s.shots|] &&
      (o.completed ==> |o.after.shots| == |s.shots| + |spans|)
  {
    if spans != [] {
      var j := |spans| - 1;
      var init := spans[..j];
      ComponentWritesShots(s, f, name, init);
      var o := ComponentWrites(s, f, name, init);
      var r := ComponentWrites(s, f, name, spans);
      var k := |o.after.shots| - |s.shots|;
      var p := Planned(f, name, spans);
      var image := Image(f.path, name, j, f.number, f.time);
      assert p == Planned(f, name, init) + [Shot(image, spans[j])];
      assert p[..k] == Planned(f, name, init)[..k];
      if o.completed {
        assert r == WriteShot(o.after, image, spans[j]);
        if r.completed {
          assert r.after.shots == o.after.shots + [Shot(image, spans[j])];
          assert p[..k + 1] == p;
        } else {
          assert r.after == o.after;
        }
      } else {
        assert r == o;
      }
    }
  }

  /** The component loop's next iteration, drawing component j. */
  lemma ComponentWritesNext(s: Snapshot, f: Frame, name: string, spans: seq<Span>, j: nat)
    requires j < |spans|
    ensures var o := ComponentWrites(s, f, name, spans[..j]);
      ComponentWrites(s, f, name, spans[..j + 1]) ==
        if o.completed then WriteShot(o.after, Image(f.path, name, j, f.number, f.time), spans[j]) else o
  {
    assert spans[..j + 1][..j] == spans[..j];
  }

  /** Once a component raises, the later components are not drawn. */
  lemma {:induction false} ComponentWritesStop(s: Snapshot, f: Frame, name: string, spans: seq<Span>, j: nat)
    requires j <= |spans|
    requires !ComponentWrites(s, f, name, spans[..j]).completed
    ensures ComponentWrites(s, f, name, spans) == ComponentWrites(s, f, name, spans[..j])
  {
    if j < |spans| {
      assert spans[..|spans| - 1][..j] == spans[..j];
      ComponentWritesStop(s, f, name, spans[..|spans| - 1], j);
    } else {
      assert spans[..j] == spans;
    }
  }

  /**
   * Drawing component j after components 0..j-1 were drawn: the loop has
   * now drawn 0..j, and if component j raised, the whole loop ends there.
   */
  lemma ComponentWritesDraw(s: Snapshot, f: Frame, name: string, spans: seq<Span>, j: nat,
                            before: Snapshot, after: Snapshot, ok: bool)
    requires j < |spans|
    requires ComponentWrites(s, f, name, spans[..j]) == Outcome(before, true)
    requires Outcome(after, ok) == WriteShot(before, Image(f.path, name, j, f.number, f.time), spans[j])
    ensures ComponentWrites(s, f, name, spans[..j + 1]) == Outcome(after, ok)
    ensures !ok ==> ComponentWrites(s, f, name, spans) == Outcome(after, false)
  {
    ComponentWritesNext(s, f, name, spans, j);
    if !ok {
      ComponentWritesStop(s, f, name, spans, j + 1);
    }
  }

  /** The file of component c of field `name` in frame f. */
  function ComponentFile(f: Frame, name: string, c: nat): string {
    FileName(Image(f.path, name, c, f.number, f.time))
  }

  /** None of the files of components 0..n-1 is among `files`. */
  predicate Absent(files: set<string>, f: Frame, name: string, n: nat) {
    n == 0 || (Absent(files, f, name, n - 1) && ComponentFile(f, name, n - 1) !in files)
  }

  /** The files of components 0..n-1. */
  function Names(f: Frame, name: string, n: nat): set<string> {
    if n == 0 then {} else Names(f, name, n - 1) + {ComponentFile(f, name, n - 1)}
  }

  /** The file of component c is not among the files of the components before c. */
  lemma {:induction false} NamesBefore(f: Frame, name: string, n: nat, c: nat)
    requires n <= c
    ensures ComponentFile(f, name, c) !in Names(f, name, n)
  {
    if n > 0 {
      NamesBefore(f, name, n - 1, c);
      ComponentFilesDistinct(f, name, c, n - 1);
    }
  }

  /** Two components of one frame are written to different files. */
  lemma ComponentFilesDistinct(f: Frame, name: string, c1: nat, c2: nat)
    requires c1 != c2
    ensures ComponentFile(f, name, c1) != ComponentFile(f, name, c2)
  {
    DistinctComponentsDistinctNames(f.path, name, c1, c2, f.number, f.time);
  }

  /**
   * The component loop completes exactly when none of the components'
   * files exists yet, and it then adds exactly those files.
   */
  lemma {:induction false} ComponentWritesCompletes(s: Snapshot, f: Frame, name: string, spans: seq<Span>)
    ensures var o := ComponentWrites(s, f, name, spans);
      (o.completed <==> Absent(s.files, f, name, |spans|)) &&
      (o.completed ==> o.after.files == s.files + Names(f, name, |spans|))
  {
    if spans != [] {
      var j := |spans| - 1;
      var init := spans[..j];
      ComponentWritesCompletes(s, f, name, init);
      var o := ComponentWrites(s, f, name, init);
      var r := ComponentWrites(s, f, name, spans);
      if o.completed {
        assert r == WriteShot(o.after, Image(f.path, name, j, f.number, f.time), spans[j]);
        NamesBefore(f, name, j, j);
        assert ComponentFile(f, name, j) in o.after.files <==> ComponentFile(f, name, j) in s.files;
      } else {
        assert r == o;
      }
    }
  }

  /**
   * The range a field gets from autoscaling after the first i timesteps:
   * the reader's range at the first of them (in processing order) where
   * the field exists, or None if it exists at none of them.
   */
  function FirstRange(job: Job, name: string, i: nat): Option<Span>
    requires i <= |job.times|
  {
    if i == 0 then None
    else
      var earlier := FirstRange(job, name, i - 1);
      if earlier.Some? then earlier
      else if name in FrameAt(job, i - 1).data then Some(FrameAt(job, i - 1).data[name])
      else None
  }

  /** FirstRange is the range at the earliest timestep where the field exists. */
  lemma {:induction false} FirstRangeIsFirst(job: Job, name: string, i: nat)
    requires i <= |job.times|
    ensures FirstRange(job, name, i).None? <==> forall j :: 0 <= j < i ==> name !in FrameAt(job, j).data
    ensures FirstRange(job, name, i).Some? ==>
              exists j :: 0 <= j < i && name in FrameAt(job, j).data &&
                FirstRange(job, name, i).value == FrameAt(job, j).data[name] &&
                forall j' :: 0 <= j' < j ==> name !in FrameAt(job, j').data
  {
    if i > 0 {
      FirstRangeIsFirst(job, name, i - 1);
    }
  }

  /** After one scalar pass, a listed field's entry has been resolved once. */
  lemma {:induction false} ScalarPassEntry(s: Snapshot, f: Frame, order: seq<string>, name: string)
    requires name in s.scalars
    ensures ScalarPass(s, f, order).scalars[name] ==
              if name in order then ScalarEntry(s.scalars[name], name, f.data) else s.scalars[name]
  {
    if order != [] {
      var init := order[..|order| - 1];
      ScalarPassEntry(s, f, init, name);
      ScalarEntryChanges(s.scalars[name], name, f.data);
      assert name in order <==> name in init || name == order[|order| - 1];
    }
  }

  /** After one vector pass, a listed field's entry has been resolved once. */
  lemma {:induction false} VectorPassEntry(s: Snapshot, f: Frame, order: seq<string>, name: string)
    requires name in s.vectors
    ensures VectorPass(s, f, order).vectors[name] ==
              if name in order then VectorEntry(s.vectors[name], name, f.data) else s.vectors[name]
  {
    if order != [] {
      var init := order[..|order| - 1];
      VectorPassEntry(s, f, init, name);
      VectorEntryChanges(s.vectors[name], name, f.data);
      assert name in order <==> name in init || name == order[|order| - 1];
    }
  }

  /** The entry an `"auto"` scalar holds once FirstRange is known. */
  function ScalarAutoEntry(first: Option<Span>): Limits {
    match first
    case None => Auto
    case Some(r) => Range(r)
  }

  /** The entry an `"auto"` vector holds once FirstRange is known. */
  function VectorAutoEntry(first: Option<Span>): Limits {
    match first
    case None => Auto
    case Some(r) => Components([r, r, r])
  }

  /** One timestep resolves a listed scalar field's entry once. */
  lemma StepScalarEntry(p: Snapshot, f: Frame, job: Job, name: string)
    requires name in p.scalars && name in job.scalarOrder
    ensures Step(p, f, job).scalars[name] == ScalarEntry(p.scalars[name], name, f.data)
  {
    ScalarPassEntry(VectorPass(p, f, job.vectorOrder), f, job.scalarOrder, name);
  }

  /** One timestep resolves a listed vector field's entry once. */
  lemma StepVectorEntry(p: Snapshot, f: Frame, job: Job, name: string)
    requires name in p.vectors && name in job.vectorOrder
    ensures Step(p, f, job).vectors[name] == VectorEntry(p.vectors[name], name, f.data)
  {
    VectorPassEntry(p, f, job.vectorOrder, name);
  }

  /** Timestep i resolves an `"auto"` scalar's entry from FirstRange up to i to FirstRange up to i + 1. */
  lemma ScalarAutoEntryAdvances(job: Job, name: string, i: nat)
    requires i < |job.times|
    ensures ScalarEntry(ScalarAutoEntry(FirstRange(job, name, i)), name, FrameAt(job, i).data)
            == ScalarAutoEntry(FirstRange(job, name, i + 1))
  {
  }

  /** Timestep i resolves an `"auto"` vector's entry from FirstRange up to i to FirstRange up to i + 1. */
  lemma VectorAutoEntryAdvances(job: Job, name: string, i: nat)
    requires i < |job.times|
    ensures VectorEntry(VectorAutoEntry(FirstRange(job, name, i)), name, FrameAt(job, i).data)
            == VectorAutoEntry(FirstRange(job, name, i + 1))
  {
  }

  /** One timestep advances an `"auto"` scalar's entry from FirstRange up to i to FirstRange up to i + 1. */
  lemma StepAdvancesScalar(p: Snapshot, job: Job, name: string, i: nat)
    requires i < |job.times| && name in p.scalars && name in job.scalarOrder
    requires p.scalars[name] == ScalarAutoEntry(FirstRange(job, name, i))
    ensures Step(p, FrameAt(job, i), job).scalars[name] == ScalarAutoEntry(FirstRange(job, name, i + 1))
  {
    StepScalarEntry(p, FrameAt(job, i), job, name);
    ScalarAutoEntryAdvances(job, name, i);
  }

  /** One timestep advances an `"auto"` vector's entry from FirstRange up to i to FirstRange up to i + 1. */
  lemma StepAdvancesVector(p: Snapshot, job: Job, name: string, i: nat)
    requires i < |job.times| && name in p.vectors && name in job.vectorOrder
    requires p.vectors[name] == VectorAutoEntry(FirstRange(job, name, i))
    ensures Step(p, FrameAt(job, i), job).vectors[name] == VectorAutoEntry(FirstRange(job, name, i + 1))
  {
    StepVectorEntry(p, FrameAt(job, i), job, name);
    VectorAutoEntryAdvances(job, name, i);
  }

  /** Visiting the next field of `order` in a scalar pass, when it was not visited before. */
  lemma ScalarPassNext(s: Snapshot, f: Frame, order: seq<string>, idx: nat)
    requires idx < |order| && order[idx] !in order[..idx] && order[idx] in s.scalars
    ensures var p := ScalarPass(s, f, order[..idx]);
      order[idx] in p.scalars && p.scalars[order[idx]] == s.scalars[order[idx]] &&
      ScalarPass(s, f, order[..idx + 1]) == ScalarDisplay(p, f, order[idx]).after
  {
    ScalarPassEntry(s, f, order[..idx], order[idx]);
    assert order[..idx + 1][..idx] == order[..idx];
  }

  /** Visiting the next field of `order` in a vector pass, when it was not visited before. */
  lemma VectorPassNext(s: Snapshot, f: Frame, order: seq<string>, idx: nat)
    requires idx < |order| && order[idx] !in order[..idx] && order[idx] in s.vectors
    ensures var p := VectorPass(s, f, order[..idx]);
      order[idx] in p.vectors && p.vectors[order[idx]] == s.vectors[order[idx]] &&
      VectorPass(s, f, order[..idx + 1]) == VectorDisplay(p, f, order[idx]).after
  {
    VectorPassEntry(s, f, order[..idx], order[idx]);
    assert order[..idx + 1][..idx] == order[..idx];
  }

  /**
   * Scalar autoscaling happens once: an `"auto"` entry stays `"auto"`
   * until the first timestep where the field exists and from then on holds
   * that timestep's range.
   */
  lemma {:induction false} ScalarAutoscaledOnce(s: Snapshot, job: Job, name: string, i: nat)
    requires i <= |job.times|
    requires name in s.scalars && name in job.scalarOrder && s.scalars[name] == Auto
    ensures Run(s, job, i).scalars[name] == ScalarAutoEntry(FirstRange(job, name, i))
  {
    if i > 0 {
      ScalarAutoscaledOnce(s, job, name, i - 1);
      var p := Run(s, job, i - 1);
      var q := Step(p, FrameAt(job, i - 1), job);
      StepAdvancesScalar(p, job, name, i - 1);
      assert Run(s, job, i) == q;
    }
  }

  /** A scalar entry other than `"auto"` is never changed by the run. */
  lemma {:induction false} ScalarExplicitKept(s: Snapshot, job: Job, name: string, i: nat)
    requires i <= |job.times|
    requires name in s.scalars && name in job.scalarOrder && s.scalars[name] != Auto
    ensures Run(s, job, i).scalars[name] == s.scalars[name]
  {
    if i > 0 {
      ScalarExplicitKept(s, job, name, i - 1);
      var p := Run(s, job, i - 1);
      StepScalarEntry(p, FrameAt(job, i - 1), job, name);
      ScalarEntryChanges(p.scalars[name], name, FrameAt(job, i - 1).data);
    }
  }

  /**
   * Vector autoscaling happens once: an `"auto"` entry stays `"auto"`
   * until the first timestep where the field exists and from then on holds
   * `[r, r, r]` for that timestep's range r.
   */
  lemma {:induction false} VectorAutoscaledOnce(s: Snapshot, job: Job, name: string, i: nat)
    requires i <= |job.times|
    requires name in s.vectors && name in job.vectorOrder && s.vectors[name] == Auto
    ensures Run(s, job, i).vectors[name] == VectorAutoEntry(FirstRange(job, name, i))
  {
    if i > 0 {
      VectorAutoscaledOnce(s, job, name, i - 1);
      var p := Run(s, job, i - 1);
      var q := Step(p, FrameAt(job, i - 1), job);
      StepAdvancesVector(p, job, name, i - 1);
      assert Run(s, job, i) == q;
    }
  }

  /** A vector entry other than `"auto"` is never changed by the run. */
  lemma {:induction false} VectorExplicitKept(s: Snapshot, job: Job, name: string, i: nat)
    requires i <= |job.times|
    requires name in s.vectors && name in job.vectorOrder && s.vectors[name] != Auto
    ensures Run(s, job, i).vectors[name] == s.vectors[name]
  {
    if i > 0 {
      VectorExplicitKept(s, job, name, i - 1);
      var p := Run(s, job, i - 1);
      StepVectorEntry(p, FrameAt(job, i - 1), job, name);
      VectorEntryChanges(p.vectors[name], name, FrameAt(job, i - 1).data);
    }
  }

  /**
   * At timestep i an `"auto"` scalar's entry gives the colour range
   * FirstRange up to and including i.
   */
  lemma ScalarColourAtStep(job: Job, name: string, i: nat, e: Limits)
    requires i < |job.times| && e == ScalarAutoEntry(FirstRange(job, name, i))
    ensures ScalarColour(e, name, FrameAt(job, i).data) == FirstRange(job, name, i + 1)
  {
  }

  /**
   * At timestep i an `"auto"` vector's entry gives FirstRange up to and
   * including i for each of the three components.
   */
  lemma VectorColoursAtStep(job: Job, name: string, i: nat, e: Limits)
    requires i < |job.times| && e == VectorAutoEntry(FirstRange(job, name, i))
    ensures var first := FirstRange(job, name, i + 1);
      VectorColours(e, name, FrameAt(job, i).data) ==
        if first.Some? then Some([first.value, first.value, first.value]) else None
  {
  }

  /**
   * The display call of an `"auto"` scalar at timestep i draws file
   * `name_0_<frame>_(<time>)` with FirstRange up to and including i exactly
   * when that is known and the file does not exist yet; otherwise it
   * raises without drawing.
   */
  lemma ScalarDisplayAtStep(job: Job, name: string, i: nat, p: Snapshot)
    requires i < |job.times|
    requires name in p.scalars && p.scalars[name] == ScalarAutoEntry(FirstRange(job, name, i))
    ensures var o := ScalarDisplay(p, FrameAt(job, i), name);
      var first := FirstRange(job, name, i + 1);
      var image := Image(job.path, name, 0, FrameNumber(job.total, i), job.times[i]);
      (first.None? ==> o == Outcome(p, false)) &&
      (!o.completed ==> o.after.shots == p.shots && o.after.files == p.files) &&
      (o.completed <==> first.Some? && FileName(image) !in p.files) &&
      (o.completed ==> o.after.shots == p.shots + [Shot(image, first.value)] && o.after.files == p.files + {FileName(image)})
  {
    ScalarColourAtStep(job, name, i, p.scalars[name]);
  }

  /**
   * The display call of an `"auto"` vector at timestep i draws components
   * 0, 1, 2 in turn, each with FirstRange up to and including i; it
   * completes exactly when that is known and none of the three files
   * exists yet, and raises without drawing when it is None.
   */
  lemma VectorDisplayAtStep(job: Job, name: string, i: nat, p: Snapshot)
    requires i < |job.times|
    requires name in p.vectors && p.vectors[name] == VectorAutoEntry(FirstRange(job, name, i))
    ensures var o := VectorDisplay(p, FrameAt(job, i), name);
      var first := FirstRange(job, name, i + 1);
      var k := |o.after.shots| - |p.shots|;
      var file0 := FileName(Image(job.path, name, 0, FrameNumber(job.total, i), job.times[i]));
      var file1 := FileName(Image(job.path, name, 1, FrameNumber(job.total, i), job.times[i]));
      var file2 := FileName(Image(job.path, name, 2, FrameNumber(job.total, i), job.times[i]));
      (first.None? ==> o == Outcome(p, false)) &&
      (o.completed <==> first.Some? && file0 !in p.files && file1 !in p.files && file2 !in p.files) &&
      (o.completed ==> o.after.files == p.files + {file0, file1, file2}) &&
      (first.Some? ==>
        |p.shots| <= |o.after.shots| <= |p.shots| + 3 &&
        (o.completed ==> k == 3) &&
        o.after.shots == p.shots + Planned(FrameAt(job, i), name, [first.value, first.value, first.value])[..k])
  {
    var f := FrameAt(job, i);
    VectorColoursAtStep(job, name, i, p.vectors[name]);
    var first := FirstRange(job, name, i + 1);
    if first.Some? {
      var r := first.value;
      var p1 := p.(vectors := p.vectors[name := VectorEntry(p.vectors[name], name, f.data)]);
      assert VectorDisplay(p, f, name) == ComponentWrites(p1, f, name, [r, r, r]);
      ComponentWritesShots(p1, f, name, [r, r, r]);
      ComponentWritesCompletes(p1, f, name, [r, r, r]);
      var c0, c1, c2 := ComponentFile(f, name, 0), ComponentFile(f, name, 1), ComponentFile(f, name, 2);
      assert Names(f, name, 1) == {c0};
      assert Names(f, name, 2) == {c0, c1};
      assert Names(f, name, 3) == {c0, c1, c2};
      assert Absent(p.files, f, name, 1) <==> c0 !in p.files;
      assert Absent(p.files, f, name, 2) <==> c0 !in p.files && c1 !in p.files;
      assert Absent(p.files, f, name, 3) <==> c0 !in p.files && c1 !in p.files && c2 !in p.files;
    }
  }


  /**
   * The images written so far are all different files, each now in the
   * folder and none of them among the files `existing` that were there
   * before the run.
   */
  predicate Recorded(existing: set<string>, s: Snapshot) {
    existing <= s.files &&
    (forall t :: 0 <= t < |s.shots| ==> FileName(s.shots[t].image) in s.files && FileName(s.shots[t].image) !in existing) &&
    (forall t, u :: 0 <= t < u < |s.shots| ==> FileName(s.shots[t].image) != FileName(s.shots[u].image))
  }

  lemma WriteShotRecorded(existing: set<string>, s: Snapshot, image: Image, span: Span)
    requires Recorded(existing, s)
    ensures Recorded(existing, WriteShot(s, image, span).after)
  {
    var file := FileName(image);
    if file !in s.files {
      var r := WriteShot(s, image, span).after;
      assert r.shots == s.shots + [Shot(image, span)] && r.files == s.files + {file};
      forall t | 0 <= t < |r.shots|
        ensures FileName(r.shots[t].image) in r.files && FileName(r.shots[t].image) !in existing
      {
        if t < |s.shots| {
          assert r.shots[t] == s.shots[t];
        }
      }
      forall t, u | 0 <= t < u < |r.shots|
        ensures FileName(r.shots[t].image) != FileName(r.shots[u].image)
      {
        assert r.shots[t] == s.shots[t];
        if u == |s.shots| {
          assert FileName(r.shots[t].image) in s.files;
        } else {
          assert r.shots[u] == s.shots[u];
        }
      }
    }
  }

  lemma {:induction false} ComponentWritesRecorded(existing: set<string>, s: Snapshot, f: Frame, name: string, spans: seq<Span>)
    requires Recorded(existing, s)
    ensures Recorded(existing, ComponentWrites(s, f, name, spans).after)
  {
    if spans != [] {
      var j := |spans| - 1;
      ComponentWritesRecorded(existing, s, f, name, spans[..j]);
      var o := ComponentWrites(s, f, name, spans[..j]);
      WriteShotRecorded(existing, o.after, Image(f.path, name, j, f.number, f.time), spans[j]);
    }
  }

  lemma {:induction false} VectorPassRecorded(existing: set<string>, s: Snapshot, f: Frame, order: seq<string>)
    requires Recorded(existing, s)
    ensures Recorded(existing, VectorPass(s, f, order))
  {
    if order != [] {
      var p := VectorPass(s, f, order[..|order| - 1]);
      VectorPassRecorded(existing, s, f, order[..|order| - 1]);
      var name := order[|order| - 1];
      if name in p.vectors {
        match VectorColours(p.vectors[name], name, f.data)
        case None =>
        case Some(spans) =>
          ComponentWritesRecorded(existing, p.(vectors := p.vectors[name := VectorEntry(p.vectors[name], name, f.data)]), f, name, spans);
      }
    }
  }

  lemma {:induction false} ScalarPassRecorded(existing: set<string>, s: Snapshot, f: Frame, order: seq<string>)
    requires Recorded(existing, s)
    ensures Recorded(existing, ScalarPass(s, f, order))
  {
    if order != [] {
      var p := ScalarPass(s, f, order[..|order| - 1]);
      ScalarPassRecorded(existing, s, f, order[..|order| - 1]);
      var name := order[|order| - 1];
      if name in p.scalars {
        match ScalarColour(p.scalars[name], name, f.data)
        case None =>
        case Some(span) =>
          WriteShotRecorded(existing, p.(scalars := p.scalars[name := ScalarEntry(p.scalars[name], name, f.data)]),
                            Image(f.path, name, 0, f.number, f.time), span);
      }
    }
  }

  /**
   * No image is written twice and no file that existed before the run is
   * overwritten: a clash makes `write_image` raise instead.
   */
  lemma {:induction false} RunNeverOverwrites(existing: set<string>, s: Snapshot, job: Job, i: nat)
    requires i <= |job.times| && Recorded(existing, s)
    ensures Recorded(existing, Run(s, job, i))
  {
    if i > 0 {
      RunNeverOverwrites(existing, s, job, i - 1);
      var p := Run(s, job, i - 1);
      var f := FrameAt(job, i - 1);
      VectorPassRecorded(existing, p, f, job.vectorOrder);
      ScalarPassRecorded(existing, VectorPass(p, f, job.vectorOrder), f, job.scalarOrder);
    }
  }
}
