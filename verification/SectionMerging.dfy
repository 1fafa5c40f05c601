/** Which sections are merged: each goes on to the first that makes it long enough, and a short end joins the last. */
module SectionMerging {
  import opened Options
  import opened Text
  import opened LineCutter
  import opened Windows
  import opened Sections

  /** The trail of a run of sections, joined from the first on. */
  function RunTrail(sections: seq<Section>, a: nat, b: nat): (trail: string)
    requires a < b <= |sections| && WellTrailed(sections)
    ensures |trail| <= TRAIL_CHARS
    decreases b - a
  {
    if a + 1 == b then sections[a].trail else Joined(RunTrail(sections, a, b - 1), sections[b - 1].trail)
  }

  /** The sections from `a`, before `b`, as one. */
  function RunOf(sections: seq<Section>, a: nat, b: nat): Section
    requires a < b <= |sections| && WellTrailed(sections)
  {
    Section(sections[a].first, sections[b - 1].last, RunTrail(sections, a, b))
  }

  ghost predicate WithinLines(lines: seq<Line>, sections: seq<Section>) {
    && WellTrailed(sections)
    && forall i, j :: 0 <= i <= j < |sections| ==> sections[i].first < sections[j].last <= |lines|
  }

  /** So many words hold the sections from `a`, before `b`. */
  function RunWords(lines: seq<Line>, sections: seq<Section>, a: nat, b: nat): int
    requires WithinLines(lines, sections) && a < b <= |sections|
  {
    WordsIn(lines, sections[a].first, sections[b - 1].last)
  }

  /** The sections from `a`, before `b`, are too short to stand alone, wherever they are cut off. */
  ghost predicate AllShort(lines: seq<Line>, sections: seq<Section>, a: nat, b: nat)
    requires WithinLines(lines, sections) && a <= b <= |sections|
  {
    forall c: nat :: a < c <= b ==> RunWords(lines, sections, a, c) < MIN_SECTION_WORDS
  }

  /** Together they are long enough, and not without the last. */
  ghost predicate JustLong(lines: seq<Line>, sections: seq<Section>, a: nat, b: nat)
    requires WithinLines(lines, sections) && a < b <= |sections|
  {
    AllShort(lines, sections, a, b - 1) && RunWords(lines, sections, a, b) >= MIN_SECTION_WORDS
  }

  /** `merged` are runs of sections that start at `at`, each just long enough; `at` ends where the last one does. */
  ghost predicate Runs(lines: seq<Line>, sections: seq<Section>, merged: seq<Section>, at: seq<nat>)
    requires WithinLines(lines, sections)
  {
    && |at| == |merged| + 1 && at[0] == 0 && at[|merged|] <= |sections|
    && forall i, j :: 0 <= i < |merged| && j == i + 1 ==>
         at[i] < at[j] <= |sections| && JustLong(lines, sections, at[i], at[j])
           && merged[i] == RunOf(sections, at[i], at[j])
  }

  /** Where merging stands before section `k`: runs just long enough, and a short one after them. */
  ghost predicate MergesTo(lines: seq<Line>, sections: seq<Section>, k: nat, state: Merging, at: seq<nat>)
    requires WithinLines(lines, sections) && k <= |sections|
  {
    && Runs(lines, sections, state.merged, at)
    && var from := at[|state.merged|];
       if state.pending.None? then from == k
       else from < k && AllShort(lines, sections, from, k) && state.pending.value == RunOf(sections, from, k)
  }

  lemma PartitionWithin(lines: seq<Line>, sections: seq<Section>)
    requires Partition(sections, 0, |lines|)
    ensures WithinLines(lines, sections)
  {
    forall i, j | 0 <= i <= j < |sections| ensures sections[i].first < sections[j].last <= |lines| {
      if i < j { PartitionOrdered(sections, 0, |lines|, i, j); }
    }
  }

  lemma OneRun(lines: seq<Line>, sections: seq<Section>, merged: seq<Section>, at: seq<nat>, k: nat)
    requires WithinLines(lines, sections) && Runs(lines, sections, merged, at) && at[|merged|] < k <= |sections|
    requires JustLong(lines, sections, at[|merged|], k)
    ensures Runs(lines, sections, merged + [RunOf(sections, at[|merged|], k)], at + [k])
  {
    hide JustLong, RunOf;
    var more, all := at + [k], merged + [RunOf(sections, at[|merged|], k)];
    forall i, j | 0 <= i < |all| && j == i + 1
      ensures more[i] < more[j] <= |sections| && JustLong(lines, sections, more[i], more[j])
              && all[i] == RunOf(sections, more[i], more[j])
    {
      if i < |merged| { assert more[i] == at[i] && more[j] == at[j] && all[i] == merged[i]; }
    }
  }

  lemma AbsorbMerges(lines: seq<Line>, sections: seq<Section>, k: nat, state: Merging, at: seq<nat>)
      returns (more: seq<nat>)
    requires WithinLines(lines, sections) && k < |sections| && MergesTo(lines, sections, k, state, at)
    requires state.pending.Some? ==> state.pending.value.first <= sections[k].last
    ensures MergesTo(lines, sections, k + 1, Absorb(lines, state, sections[k]), more)
  {
    hide WordsIn, Joined;
    var from := at[|state.merged|];
    var next := if state.pending.Some? then Glue(state.pending.value, sections[k]) else sections[k];
    assert next == RunOf(sections, from, k + 1);
    if Short(lines, next) {
      more := at;
    } else {
      OneRun(lines, sections, state.merged, at, k + 1);
      more := at + [k + 1];
    }
  }

  lemma {:induction false} MergingGoes(lines: seq<Line>, sections: seq<Section>, k: nat) returns (at: seq<nat>)
    requires Partition(sections, 0, |lines|) && k <= |sections| && WithinLines(lines, sections)
    ensures MergesTo(lines, sections, k, MergeSections(lines, sections, k), at)
  {
    hide MergesTo, WithinLines;
    if k == 0 {
      at := [0];
      NoneMerged(lines, sections);
    } else {
      at := MergingGoes(lines, sections, k - 1);
      AbsorbKeeps(lines, MergeSections(lines, sections, k - 1), sections[k - 1]);
      at := AbsorbMerges(lines, sections, k - 1, MergeSections(lines, sections, k - 1), at);
    }
  }

  lemma NoneMerged(lines: seq<Line>, sections: seq<Section>)
    requires WithinLines(lines, sections)
    ensures MergesTo(lines, sections, 0, Merging([], None), [0])
  {
  }

  /** The last run of the merged sections: just long enough, then a short rest if there is one; or all there is. */
  ghost predicate LastRun(lines: seq<Line>, sections: seq<Section>, a: nat, s: Section)
    requires WithinLines(lines, sections) && a < |sections|
  {
    var n := |sections|;
    || (JustLong(lines, sections, a, n) && s == RunOf(sections, a, n))
    || (a == 0 && AllShort(lines, sections, 0, n) && s == RunOf(sections, 0, n))
    || exists c: nat :: a < c < n && JustLong(lines, sections, a, c) && AllShort(lines, sections, c, n)
                        && s == Glue(RunOf(sections, a, c), RunOf(sections, c, n))
  }

  /** Exactly the sections of a body after merging: from the first on, each takes in sections until it is long
      enough to stand alone and no further, and a short rest goes to the last. */
  ghost predicate MergesWell(lines: seq<Line>, sections: seq<Section>, merged: seq<Section>) {
    && WithinLines(lines, sections) && merged != []
    && var m := |merged| - 1;
       exists at :: Runs(lines, sections, merged[..m], at) && at[m] < |sections|
                    && LastRun(lines, sections, at[m], merged[m])
  }

  lemma MergedExactly(lines: seq<Line>, sections: seq<Section>)
    requires Partition(sections, 0, |lines|)
    ensures MergesWell(lines, sections, MergedOf(lines, sections))
  {
    hide JustLong, AllShort, WithinLines, MergeSections, RunOf, Runs;
    PartitionWithin(lines, sections);
    var at := MergingGoes(lines, sections, |sections|);
    MergedPartition(lines, sections);
    var state := MergeSections(lines, sections, |sections|);
    FinishMerges(lines, sections, state, at);
  }

  lemma FinishMerges(lines: seq<Line>, sections: seq<Section>, state: Merging, at: seq<nat>)
    requires WithinLines(lines, sections) && sections != [] && MergesTo(lines, sections, |sections|, state, at)
    requires WellTrailed(state.merged) && (state.pending.Some? ==> |state.pending.value.trail| <= TRAIL_CHARS)
    requires state.pending.Some? || state.merged != []
    ensures MergesWell(lines, sections, Finish(state))
  {
    hide JustLong, AllShort, WithinLines, Glue, RunOf;
    var merged := Finish(state);
    if state.merged == [] {
      assert merged[..0] == state.merged;
      assert Runs(lines, sections, merged[..0], at);
    } else {
      var m := |state.merged| - 1;
      RunsFront(lines, sections, state.merged, at);
      assert merged[..m] == state.merged[..m];
      assert Runs(lines, sections, merged[..m], at[..m + 1]);
    }
  }

  lemma RunsFront(lines: seq<Line>, sections: seq<Section>, merged: seq<Section>, at: seq<nat>)
    requires WithinLines(lines, sections) && Runs(lines, sections, merged, at) && merged != []
    ensures var m := |merged| - 1;
            && Runs(lines, sections, merged[..m], at[..m + 1]) && at[m] < at[m + 1] <= |sections|
            && JustLong(lines, sections, at[m], at[m + 1]) && merged[m] == RunOf(sections, at[m], at[m + 1])
  {
    hide JustLong;
  }

  /** Joined trails: a trail that opens with the other stands for both; else both stand there, one after the other. */
  lemma JoinedHolds(first: string, second: string)
    requires |first| + |second| + 2 <= TRAIL_CHARS
    ensures var r := Joined(first, second);
            && first <= r && (second <= r || r == first + ", " + second)
            && (first <= second ==> r == second) && (second <= first ==> r == first)
  {
  }
}
