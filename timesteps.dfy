/**
 * Timestep selection (`animator.set_times`) and the frame number that
 * `animator.write_all_fields` gives each selected time. Time values are
 * opaque.
 */
module TimeSteps {

  /** Python's `s[::-1]`. */
  function Reverse<T>(s: seq<T>): (r: seq<T>)
    ensures |r| == |s|
    ensures forall i :: 0 <= i < |s| ==> r[i] == s[|s| - 1 - i]
  {
    if s == [] then [] else Reverse(s[1..]) + [s[0]]
  }

  /** How many elements Python's `s[:k]` keeps of a sequence of length n. */
  function SliceLength(n: nat, k: int): nat {
    if k >= 0 then (if k <= n then k else n)
    else (if n + k >= 0 then n + k else 0)
  }

  /** Python's `s[:k]`; a negative k counts from the end. */
  function SliceTo<T>(s: seq<T>, k: int): (r: seq<T>)
    ensures |r| == SliceLength(|s|, k)
    ensures forall i :: 0 <= i < |r| ==> r[i] == s[i]
  {
    if k >= 0 then (if k <= |s| then s[..k] else s)
    else (if |s| + k >= 0 then s[..|s| + k] else [])
  }

  /** What `set_times` stores: `total_times` and `times`. */
  datatype Selection<T> = Selection(total: nat, times: seq<T>)

  /** `set_times`: all reader times newest first, cut to `ntimes` unless animating. */
  function SetTimes<T>(reader: seq<T>, animate: bool, ntimes: int): (r: Selection<T>)
    ensures r.total == |reader|
    ensures |r.times| == if animate then |reader| else SliceLength(|reader|, ntimes)
    ensures forall j :: 0 <= j < |r.times| ==> r.times[j] == reader[|reader| - 1 - j]
  {
    var newestFirst := Reverse(reader);
    Selection(|reader|, if !animate then SliceTo(newestFirst, ntimes) else newestFirst)
  }

  /** `frame_nr = total_times - time_nr` for loop position `position`. */
  function FrameNumber(total: nat, position: nat): int {
    total - position
  }

  /**
   * Without `--all`, a non-negative `ntimes` selects the last
   * min(ntimes, n) reader times, newest first; the default `ntimes = 1`
   * selects only the latest time.
   */
  lemma LatestTimes<T>(reader: seq<T>, ntimes: nat)
    ensures var sel := SetTimes(reader, false, ntimes).times;
      |sel| == (if ntimes <= |reader| then ntimes else |reader|) &&
      sel == Reverse(reader[|reader| - |sel|..])
    ensures |reader| > 0 ==> SetTimes(reader, false, 1).times == [reader[|reader| - 1]]
  {
    var sel := SetTimes(reader, false, ntimes).times;
    var tail := reader[|reader| - |sel|..];
    assert Reverse(tail) == sel by {
      forall i | 0 <= i < |sel| ensures Reverse(tail)[i] == sel[i] {
        calc {
          Reverse(tail)[i];
          tail[|tail| - 1 - i];
          reader[|reader| - 1 - i];
          sel[i];
        }
      }
    }
    if |reader| > 0 {
      var latest := SetTimes(reader, false, 1).times;
      assert |latest| == 1 && latest[0] == reader[|reader| - 1];
    }
  }

  /**
   * With `--all`, every reader time is selected, newest first, whatever
   * `ntimes` is; without `--all`, a negative `ntimes` drops that many of
   * the oldest times.
   */
  lemma AllTimes<T>(reader: seq<T>, ntimes: int)
    ensures SetTimes(reader, true, ntimes).times == Reverse(reader)
    ensures ntimes < 0 ==> SetTimes(reader, false, ntimes).times == Reverse(reader)[..SliceLength(|reader|, ntimes)]
  {
  }

  /**
   * Frame numbering: loop position j gets frame `total_times - j`, which is
   * the 1-based position of that time in the reader's own list; frames lie
   * in 1..total_times and strictly decrease along the loop.
   */
  lemma FrameNumbering<T>(reader: seq<T>, animate: bool, ntimes: int, j: nat)
    requires j < |SetTimes(reader, animate, ntimes).times|
    ensures var sel := SetTimes(reader, animate, ntimes);
      var f := FrameNumber(sel.total, j);
      1 <= f <= sel.total && sel.times[j] == reader[f - 1] &&
      forall j' :: j < j' < |sel.times| ==> 1 <= FrameNumber(sel.total, j') < f
  {
  }
}
