/**
 * The `animator` object: its limit tables, the selected timesteps, the
 * current frame number and view time, and the image files it writes.
 * ParaView itself is not modelled; the reader's field ranges at a time
 * are passed in, and a written image is recorded by its file name and the
 * colour range of its lookup table.
 */
module AnimatorClass {
  import opened LimitTable
  import opened ImageNames
  import opened TimeSteps
  import opened Animation

  /** No entry of `order` is repeated. */
  predicate Distinct(order: seq<string>) {
    forall a, b :: 0 <= a < b < |order| ==> order[a] != order[b]
  }

  /** The entries of a sequence, as a set. */
  function Elements(order: seq<string>): set<string> {
    if order == [] then {} else Elements(order[..|order| - 1]) + {order[|order| - 1]}
  }

  /** `order` lists every key of `keys` exactly once (the iteration order of a dict). */
  predicate Enumerates(order: seq<string>, keys: set<string>) {
    Distinct(order) && Elements(order) == keys
  }

  /** Every entry of a sequence is one of its elements. */
  lemma {:induction false} EntriesAreElements(order: seq<string>)
    ensures forall i :: 0 <= i < |order| ==> order[i] in Elements(order)
  {
    if order != [] {
      var init := order[..|order| - 1];
      EntriesAreElements(init);
      forall i | 0 <= i < |order| - 1
        ensures order[i] in Elements(order)
      {
        assert order[i] == init[i];
      }
    }
  }

  /** Every element of a sequence is one of its entries. */
  lemma {:induction false} ElementsAreEntries(order: seq<string>)
    ensures forall k :: k in Elements(order) ==> k in order
  {
    if order != [] {
      var init := order[..|order| - 1];
      ElementsAreEntries(init);
      forall k | k in Elements(order)
        ensures k in order
      {
        if k in Elements(init) {
          var i :| 0 <= i < |init| && init[i] == k;
          assert order[i] == k;
        } else {
          assert order[|order| - 1] == k;
        }
      }
    }
  }

  /** A sequence without repeated entries has as many elements as entries. */
  lemma {:induction false} DistinctElements(order: seq<string>)
    requires Distinct(order)
    ensures |Elements(order)| == |order|
  {
    if order != [] {
      var init := order[..|order| - 1];
      assert Distinct(init);
      DistinctElements(init);
      ElementsAreEntries(init);
      assert order[|order| - 1] !in init;
    }
  }

  /** An enumeration visits every key and nothing else, once each: there are as many entries as keys. */
  lemma EnumeratesExactly(order: seq<string>, keys: set<string>)
    requires Enumerates(order, keys)
    ensures forall k :: k in keys <==> k in order
    ensures |order| == |keys|
  {
    EntriesAreElements(order);
    ElementsAreEntries(order);
    DistinctElements(order);
    forall k | k in order
      ensures k in keys
    {
      var i :| 0 <= i < |order| && order[i] == k;
    }
  }

  class Animator {
    /** `self.path`, the case directory. */
    const path: string
    /** `self.total_times`, the number of timesteps the reader offers. */
    const totalTimes: nat
    /** `self.times`, the selected times in processing order (as they are printed). */
    const times: seq<string>
    /** `self.scalars`, the scalar limit table. */
    var scalars: map<string, Limits>
    /** `self.vectors`, the vector limit table. */
    var vectors: map<string, Limits>
    /** The files in the `anim` folder. */
    var files: set<string>
    /** The images written, in order. */
    var shots: seq<Shot>
    /** `self.frame_nr`. */
    var frameNr: int
    /** `self.view.ViewTime`. */
    var viewTime: string

    /** The part of the object that display calls read and change. */
    function State(): Snapshot
      reads this
    {
      Snapshot(scalars, vectors, files, shots)
    }

    /**
     * `__init__` as far as the tables and times go: the scalar table gets
     * its `"Mean"` twins, the vector table is taken as configured, and
     * `set_times` selects the times.
     */
    constructor(path: string, scalarConfig: map<string, Limits>, vectorConfig: map<string, Limits>,
                existing: set<string>, readerTimes: seq<string>, animate: bool, ntimes: int)
      ensures this.path == path
      ensures scalars == WithTwins(scalarConfig, "Mean") && vectors == vectorConfig
      ensures files == existing && shots == []
      ensures totalTimes == |readerTimes| && times == SetTimes(readerTimes, animate, ntimes).times
    {
      this.path := path;
      var withMeans := AttachToDict(scalarConfig, "Mean");
      scalars := withMeans;
      vectors := vectorConfig;
      files := existing;
      shots := [];
      var selection := SetTimes(readerTimes, animate, ntimes);
      totalTimes := selection.total;
      times := selection.times;
      frameNr := 0;
      viewTime := "";
    }

    /**
     * `write_image(name, component)` with the lookup table's range `span`:
     * the file name is built from the path, field, component, frame number
     * and view time; a file that exists already makes the call raise.
     */
    method WriteImage(name: string, component: int, span: Span) returns (ok: bool)
      modifies this`files, this`shots
      ensures Outcome(State(), ok) == WriteShot(old(State()), Image(path, name, component, frameNr, viewTime), span)
    {
      var image := Image(path, name, component, frameNr, viewTime);
      var imageName := FileName(image);
      if imageName in files {
        // `os.path.exists(image_name) and self.update`: `update` was never stored
        return false;
      }
      files := files + {imageName};
      shots := shots + [Shot(image, span)];
      ok := true;
    }

    /**
     * `display_scalar(name, lim)`; `ok` is false when the call raises.
     * The caller passes the table's own entry.
     */
    method DisplayScalar(name: string, lim: Limits, data: map<string, Span>) returns (ok: bool)
      requires name in scalars && scalars[name] == lim
      modifies this`scalars, this`files, this`shots
      ensures Outcome(State(), ok) == ScalarDisplay(old(State()), Frame(path, frameNr, viewTime, data), name)
    {
      var range := lim;
      if lim.Auto? {
        if name !in data {
          // `CellData.keys().index(name)` raises
          return false;
        }
        range := Range(data[name]);
        scalars := scalars[name := range];
      } else if Truthy(scalars[name]) {
        range := scalars[name];
      }
      if !range.Range? {
        // the lookup table needs `lim[0]` and `lim[1]` to be numbers
        return false;
      }
      ok := WriteImage(name, 0, range.span);
    }

    /**
     * `display_vector_field(name, lim)`: one image per component, each
     * with the component's range; `ok` is false when the call raises. The
     * caller passes the table's own entry.
     */
    method DisplayVectorField(name: string, lim: Limits, data: map<string, Span>) returns (ok: bool)
      requires name in vectors && vectors[name] == lim
      modifies this`vectors, this`files, this`shots
      ensures Outcome(State(), ok) == VectorDisplay(old(State()), Frame(path, frameNr, viewTime, data), name)
    {
      ghost var s0 := State();
      ghost var f := Frame(path, frameNr, viewTime, data);
      ghost var colours := VectorColours(lim, name, data);
      ghost var s1 := s0.(vectors := s0.vectors[name := VectorEntry(lim, name, data)]);
      assert VectorDisplay(s0, f, name) ==
        if colours.Some? then ComponentWrites(s1, f, name, colours.value) else Outcome(s0, false);
      var ncomps := ComponentCount(lim);
      var cur := lim;
      var j := 0;
      while j < ncomps
        invariant 0 <= j <= ncomps
        invariant j == 0 ==> State() == s0 && cur == lim
        invariant j > 0 ==> && colours.Some? && |colours.value| == ncomps && !cur.Auto?
                            && vectors == s1.vectors
                            && ComponentWrites(s1, f, name, colours.value[..j]) == Outcome(State(), true)
      {
        var span: Span;
        if cur.Auto? {
          if name !in data {
            // `CellData.keys().index(name)` raises
            return false;
          }
          span := data[name];
          vectors := vectors[name := Components([span, span, span])];
        } else if vectors[name].Components? && j < |vectors[name].spans| {
          span := vectors[name].spans[j];
        } else {
          // a single range: `self.vectors[name][j]` is a number and `lim[0]` raises
          return false;
        }
        cur := Range(span);
        VectorEntryHoldsColours(lim, name, data);
        ghost var before := State();
        assert ComponentWrites(s1, f, name, colours.value[..j]) == Outcome(before, true);
        assert span == colours.value[j];
        assert Image(path, name, j, frameNr, viewTime) == Image(f.path, name, j, f.number, f.time);
        ok := WriteImage(name, j, span);
        ComponentWritesDraw(s1, f, name, colours.value, j, before, State(), ok);
        if !ok {
          return;
        }
        assert ComponentWrites(s1, f, name, colours.value[..j + 1]) == Outcome(State(), true);
        j := j + 1;
      }
      if ncomps == 0 {
        assert s1 == s0;
      } else {
        assert colours.value[..j] == colours.value;
      }
      ok := true;
    }

    /**
     * The `vectors` loop of one timestep of `write_all_fields`: every
     * field of a copy of the table, in the order `order`, is displayed with
     * its copied entry; a call that raises is ignored.
     */
    method DisplayVectorFields(order: seq<string>, data: map<string, Span>)
      requires Enumerates(order, vectors.Keys)
      modifies this`vectors, this`files, this`shots
      ensures State() == VectorPass(old(State()), Frame(path, frameNr, viewTime, data), order)
    {
      ghost var start := State();
      ghost var f := Frame(path, frameNr, viewTime, data);
      var vectorsCopy := vectors;
      EntriesAreElements(order);
      for idx := 0 to |order|
        invariant State() == VectorPass(start, f, order[..idx])
      {
        var field := order[idx];
        assert field !in order[..idx];
        VectorPassNext(start, f, order, idx);
        ghost var before := State();
        var ok := DisplayVectorField(field, vectorsCopy[field], data);
        assert f == Frame(path, frameNr, viewTime, data);
        assert Outcome(State(), ok) == VectorDisplay(before, f, field);
      }
      assert order[..|order|] == order;
    }

    /**
     * The `scalars` loop of one timestep of `write_all_fields`: every
     * field of a copy of the table, in the order `order`, is displayed with
     * its copied entry; a call that raises is ignored.
     */
    method DisplayScalars(order: seq<string>, data: map<string, Span>)
      requires Enumerates(order, scalars.Keys)
      modifies this`scalars, this`files, this`shots
      ensures State() == ScalarPass(old(State()), Frame(path, frameNr, viewTime, data), order)
    {
      ghost var start := State();
      ghost var f := Frame(path, frameNr, viewTime, data);
      var scalarsCopy := scalars;
      EntriesAreElements(order);
      for idx := 0 to |order|
        invariant State() == ScalarPass(start, f, order[..idx])
      {
        var field := order[idx];
        assert field !in order[..idx];
        ScalarPassNext(start, f, order, idx);
        ghost var before := State();
        var ok := DisplayScalar(field, scalarsCopy[field], data);
        assert f == Frame(path, frameNr, viewTime, data);
        assert Outcome(State(), ok) == ScalarDisplay(before, f, field);
      }
      assert order[..|order|] == order;
    }

    /**
     * `write_all_fields`: for each selected time, newest first, set the
     * view time and frame number, then display every vector field and
     * then every scalar field, each table iterated through a copy taken at
     * that timestep. `vectorOrder` and `scalarOrder` are the tables'
     * iteration order.
     */
    method WriteAllFields(cellData: string -> map<string, Span>, vectorOrder: seq<string>, scalarOrder: seq<string>)
      requires Enumerates(vectorOrder, vectors.Keys) && Enumerates(scalarOrder, scalars.Keys)
      modifies this`scalars, this`vectors, this`files, this`shots, this`frameNr, this`viewTime
      ensures State() == Run(old(State()), Job(path, totalTimes, times, cellData, vectorOrder, scalarOrder), |times|)
      ensures |times| > 0 ==> frameNr == FrameNumber(totalTimes, |times| - 1) && viewTime == times[|times| - 1]
    {
      ghost var job := Job(path, totalTimes, times, cellData, vectorOrder, scalarOrder);
      ghost var s0 := State();
      for i := 0 to |times|
        invariant vectors.Keys == s0.vectors.Keys && scalars.Keys == s0.scalars.Keys
        invariant State() == Run(s0, job, i)
        invariant i > 0 ==> frameNr == FrameNumber(totalTimes, i - 1) && viewTime == times[i - 1]
      {
        viewTime := times[i];
        frameNr := FrameNumber(totalTimes, i);
        var data := cellData(viewTime);
        ghost var before := State();
        ghost var f := FrameAt(job, i);
        assert f == Frame(path, frameNr, viewTime, data);
        DisplayVectorFields(vectorOrder, data);
        ghost var mid := State();
        assert mid == VectorPass(before, f, vectorOrder);
        DisplayScalars(scalarOrder, data);
        assert State() == ScalarPass(mid, f, scalarOrder);
        assert frameNr == FrameNumber(totalTimes, i) && viewTime == times[i];
        RunNext(s0, job, i);
        assert State() == Step(before, f, job);
      }
    }
  }
}
