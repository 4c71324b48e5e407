/**
 * `calculateAnnotatorStats` of `src/components/admin/annotators-view.tsx`: one
 * row per annotator with status counts, completion percentage, revision-flag
 * counts, verdict and justification count differences against the seed item,
 * and timing totals, sorted by name.
 */
module AnnotatorsView {
  import opened Wrappers
  import opened Collections
  import opened Types

  datatype RevisionStats = RevisionStats(
    questionRevisions: int,
    verdictRevisions: int,
    justificationRevisions: int,
    totalRevisions: int)

  datatype CountDiffStats = CountDiffStats(
    verdictsAdded: int,
    verdictsRemoved: int,
    justificationsAdded: int,
    justificationsRemoved: int)

  datatype TimingStats = TimingStats(averageTimeInSeconds: real, totalTimeInSeconds: int)

  datatype AnnotatorStat = AnnotatorStat(
    user: User,
    assignedCount: nat,
    completedCount: nat,
    draftCount: nat,
    nonFatwaCount: nat,
    completionPercentage: real,
    totalFinished: nat,
    revisionStats: RevisionStats,
    countDiffStats: CountDiffStats,
    timingStats: TimingStats)

  function AssignmentUser(a: ItemAssignment): string { a.userId }
  function AnnotationUser(a: Annotation): string { a.userId }

  predicate IsCompleted(a: ItemAssignment) { a.status == AssignmentStatus.Completed }
  predicate IsDraft(a: ItemAssignment) { a.status == AssignmentStatus.Draft }
  predicate IsNonFatwa(a: ItemAssignment) { a.status == AssignmentStatus.NonFatwa }

  // ---------------------------------------------------------------------------
  // Revision flags

  predicate QuestionFlagged(a: Annotation) { a.questionNeedsRevision }

  predicate VerdictFlagged(v: Verdict) { v.contextNeedsRevision || v.verdictNeedsRevision }

  predicate PrimaryFlagged(p: PrimarySource) { p.referenceNeedsRevision || p.textTranslationNeedsRevision }

  predicate SecondaryFlagged(s: SecondarySource) {
    s.quoteVerbatimNeedsRevision || s.scholarNeedsRevision || s.sourceDetailNeedsRevision
  }

  /** `anno.justifications?.primary_sources`, missing lists read as empty. */
  function PrimariesOf(a: Annotation): seq<PrimarySource> {
    if a.justifications.Some? then a.justifications.value.primarySources.GetOr([]) else []
  }

  function SecondariesOf(a: Annotation): seq<SecondarySource> {
    if a.justifications.Some? then a.justifications.value.secondarySources.GetOr([]) else []
  }

  /** The flagged verdicts of one annotation. */
  function VerdictRevisionCount(a: Annotation): int {
    Count(a.verdicts.GetOr([]), VerdictFlagged)
  }

  /** The flagged primary and secondary sources of one annotation. */
  function JustificationRevisionCount(a: Annotation): int {
    Count(PrimariesOf(a), PrimaryFlagged) + Count(SecondariesOf(a), SecondaryFlagged)
  }

  /**
   * The revision reducer (`forEach` over each annotation's verdicts and
   * sources, incrementing the accumulator's counters): it counts flagged
   * questions, flagged verdicts, and flagged sources over all the annotations.
   */
  method CountRevisions(annos: seq<Annotation>) returns (questionRevisions: int, verdictRevisions: int, justificationRevisions: int)
    ensures questionRevisions == Count(annos, QuestionFlagged)
    ensures verdictRevisions == Sum(annos, VerdictRevisionCount)
    ensures justificationRevisions == Sum(annos, JustificationRevisionCount)
  {
    questionRevisions, verdictRevisions, justificationRevisions := 0, 0, 0;
    for i := 0 to |annos|
      invariant questionRevisions == Count(annos[..i], QuestionFlagged)
      invariant verdictRevisions == Sum(annos[..i], VerdictRevisionCount)
      invariant justificationRevisions == Sum(annos[..i], JustificationRevisionCount)
    {
      var anno := annos[i];
      assert annos[..i + 1][..i] == annos[..i];
      if anno.questionNeedsRevision {
        questionRevisions := questionRevisions + 1;
      }
      var vs := anno.verdicts.GetOr([]);
      ghost var verdictsBefore := verdictRevisions;
      for j := 0 to |vs|
        invariant verdictRevisions == verdictsBefore + Count(vs[..j], VerdictFlagged)
      {
        assert vs[..j + 1][..j] == vs[..j];
        if vs[j].contextNeedsRevision || vs[j].verdictNeedsRevision {
          verdictRevisions := verdictRevisions + 1;
        }
      }
      assert vs[..|vs|] == vs;
      ghost var sourcesBefore := justificationRevisions;
      var ps := PrimariesOf(anno);
      for j := 0 to |ps|
        invariant justificationRevisions == sourcesBefore + Count(ps[..j], PrimaryFlagged)
      {
        assert ps[..j + 1][..j] == ps[..j];
        if ps[j].referenceNeedsRevision || ps[j].textTranslationNeedsRevision {
          justificationRevisions := justificationRevisions + 1;
        }
      }
      assert ps[..|ps|] == ps;
      var ss := SecondariesOf(anno);
      for j := 0 to |ss|
        invariant justificationRevisions == sourcesBefore + Count(ps, PrimaryFlagged) + Count(ss[..j], SecondaryFlagged)
      {
        assert ss[..j + 1][..j] == ss[..j];
        if ss[j].quoteVerbatimNeedsRevision || ss[j].scholarNeedsRevision || ss[j].sourceDetailNeedsRevision {
          justificationRevisions := justificationRevisions + 1;
        }
      }
      assert ss[..|ss|] == ss;
    }
    assert annos[..|annos|] == annos;
  }

  /** No verdict and no source of the annotation is flagged for revision. */
  predicate NothingFlagged(a: Annotation) {
    var vs, ps, ss := a.verdicts.GetOr([]), PrimariesOf(a), SecondariesOf(a);
    && (forall j :: 0 <= j < |vs| ==> !VerdictFlagged(vs[j]))
    && (forall j :: 0 <= j < |ps| ==> !PrimaryFlagged(ps[j]))
    && (forall j :: 0 <= j < |ss| ==> !SecondaryFlagged(ss[j]))
  }

  /** Annotations without flagged verdicts or sources (missing lists included) add nothing to those counts. */
  lemma UnflaggedAddNothing(annos: seq<Annotation>)
    requires forall i :: 0 <= i < |annos| ==> NothingFlagged(annos[i])
    ensures Sum(annos, VerdictRevisionCount) == 0 && Sum(annos, JustificationRevisionCount) == 0
  {
    forall i | 0 <= i < |annos| ensures VerdictRevisionCount(annos[i]) == 0 && JustificationRevisionCount(annos[i]) == 0 {
      FilterNone(annos[i].verdicts.GetOr([]), VerdictFlagged);
      FilterNone(PrimariesOf(annos[i]), PrimaryFlagged);
      FilterNone(SecondariesOf(annos[i]), SecondaryFlagged);
    }
    SumZero(annos, VerdictRevisionCount);
    SumZero(annos, JustificationRevisionCount);
  }

  /** Each annotation adds at most its number of verdicts, and at most its number of sources. */
  lemma RevisionCountsBounded(annos: seq<Annotation>)
    ensures Sum(annos, VerdictRevisionCount) <= Sum(annos, VerdictTotal)
    ensures Sum(annos, JustificationRevisionCount) <= Sum(annos, SourceTotal)
    ensures Count(annos, QuestionFlagged) <= |annos|
    ensures 0 <= Sum(annos, VerdictRevisionCount) && 0 <= Sum(annos, JustificationRevisionCount)
  {
    SumNonNegative(annos, VerdictRevisionCount);
    SumNonNegative(annos, JustificationRevisionCount);
    SumLe(annos, VerdictRevisionCount, VerdictTotal);
    SumLe(annos, JustificationRevisionCount, SourceTotal);
  }

  function VerdictTotal(a: Annotation): int { |a.verdicts.GetOr([])| }
  function SourceTotal(a: Annotation): int { |PrimariesOf(a)| + |SecondariesOf(a)| }

  // ---------------------------------------------------------------------------
  // Count differences against the seed item

  /** `new Map(items.map(item => [item.originalId, item]))`: the last item with an id wins. */
  function ItemIndex(items: seq<AnnotationItem>): (index: map<string, AnnotationItem>)
    ensures forall k :: k in index <==> exists i :: 0 <= i < |items| && items[i].originalId == k
    ensures forall k :: k in index ==> index[k] in items && index[k].originalId == k
  {
    if items == [] then map[]
    else
      var init := ItemIndex(items[..|items| - 1]);
      var last := items[|items| - 1];
      assert forall i :: 0 <= i < |items| - 1 ==> items[..|items| - 1][i] == items[i];
      init[last.originalId := last]
  }

  /** When several items share an id, the index holds the one that comes last. */
  lemma ItemIndexLastWins(items: seq<AnnotationItem>, i: nat)
    requires i < |items|
    requires forall j :: i < j < |items| ==> items[j].originalId != items[i].originalId
    ensures ItemIndex(items)[items[i].originalId] == items[i]
  {
    if i < |items| - 1 {
      ItemIndexLastWins(items[..|items| - 1], i);
    }
  }

  /** The seed item an annotation is compared with: looked up by the annotation's `originalId`. */
  function SeedOf(a: Annotation, index: map<string, AnnotationItem>): Option<AnnotationItem> {
    if a.originalId.Some? && a.originalId.value in index then Some(index[a.originalId.value]) else None
  }

  function SeedSourceCount(item: AnnotationItem): int {
    if item.justifications.Some? then
      |item.justifications.value.primarySources.GetOr([])| + |item.justifications.value.secondarySources.GetOr([])|
    else 0
  }

  /** Final minus seed verdict count, for an annotation that has a seed item (0 otherwise). */
  function VerdictDiff(a: Annotation, index: map<string, AnnotationItem>): int {
    match SeedOf(a, index)
    case None => 0
    case Some(item) => |a.verdicts.GetOr([])| - |item.verdicts.GetOr([])|
  }

  /** Final minus seed source count, for an annotation that has a seed item (0 otherwise). */
  function JustificationDiff(a: Annotation, index: map<string, AnnotationItem>): int {
    match SeedOf(a, index)
    case None => 0
    case Some(item) => SourceTotal(a) - SeedSourceCount(item)
  }

  function Gain(d: int): nat { if d > 0 then d else 0 }
  function Loss(d: int): nat { if d < 0 then -d else 0 }

  function VerdictDiffIn(index: map<string, AnnotationItem>): Annotation -> int {
    a => VerdictDiff(a, index)
  }

  function JustificationDiffIn(index: map<string, AnnotationItem>): Annotation -> int {
    a => JustificationDiff(a, index)
  }

  function GainOf(f: Annotation -> int): Annotation -> int { a => Gain(f(a)) }
  function LossOf(f: Annotation -> int): Annotation -> int { a => Loss(f(a)) }

  function CountDiffSpec(annos: seq<Annotation>, index: map<string, AnnotationItem>): CountDiffStats {
    CountDiffStats(
      Sum(annos, GainOf(VerdictDiffIn(index))),
      Sum(annos, LossOf(VerdictDiffIn(index))),
      Sum(annos, GainOf(JustificationDiffIn(index))),
      Sum(annos, LossOf(JustificationDiffIn(index))))
  }

  /** The count-difference reducer: a loop adding each matched annotation's gains and losses. */
  method CountDifferences(annos: seq<Annotation>, index: map<string, AnnotationItem>) returns (stats: CountDiffStats)
    ensures stats == CountDiffSpec(annos, index)
  {
    stats := CountDiffStats(0, 0, 0, 0);
    for i := 0 to |annos|
      invariant stats == CountDiffSpec(annos[..i], index)
    {
      var anno := annos[i];
      assert annos[..i + 1][..i] == annos[..i];
      if anno.originalId.Some? && anno.originalId.value in index {
        var originalItem := index[anno.originalId.value];
        var verdictDiff := |anno.verdicts.GetOr([])| - |originalItem.verdicts.GetOr([])|;
        if verdictDiff > 0 {
          stats := stats.(verdictsAdded := stats.verdictsAdded + verdictDiff);
        }
        if verdictDiff < 0 {
          stats := stats.(verdictsRemoved := stats.verdictsRemoved + -verdictDiff);
        }
        var justificationDiff := SourceTotal(anno) - SeedSourceCount(originalItem);
        if justificationDiff > 0 {
          stats := stats.(justificationsAdded := stats.justificationsAdded + justificationDiff);
        }
        if justificationDiff < 0 {
          stats := stats.(justificationsRemoved := stats.justificationsRemoved + -justificationDiff);
        }
      }
    }
    assert annos[..|annos|] == annos;
  }

  /** Summed gains minus summed losses is the summed difference. */
  lemma {:induction false} GainsMinusLosses(annos: seq<Annotation>, f: Annotation -> int)
    ensures Sum(annos, GainOf(f)) - Sum(annos, LossOf(f)) == Sum(annos, f)
  {
    if annos != [] {
      GainsMinusLosses(annos[..|annos| - 1], f);
    }
  }

  /**
   * Added minus removed is the summed count difference, for verdicts and for
   * justifications, and every counter is non-negative.
   */
  lemma AddedMinusRemoved(annos: seq<Annotation>, index: map<string, AnnotationItem>)
    ensures var c := CountDiffSpec(annos, index);
      && c.verdictsAdded - c.verdictsRemoved == Sum(annos, VerdictDiffIn(index))
      && c.justificationsAdded - c.justificationsRemoved == Sum(annos, JustificationDiffIn(index))
      && c.verdictsAdded >= 0 && c.verdictsRemoved >= 0 && c.justificationsAdded >= 0 && c.justificationsRemoved >= 0
  {
    GainsMinusLosses(annos, VerdictDiffIn(index));
    GainsMinusLosses(annos, JustificationDiffIn(index));
    forall a ensures GainOf(VerdictDiffIn(index))(a) >= 0 && LossOf(VerdictDiffIn(index))(a) >= 0
      && GainOf(JustificationDiffIn(index))(a) >= 0 && LossOf(JustificationDiffIn(index))(a) >= 0 {
      assert GainOf(VerdictDiffIn(index))(a) == Gain(VerdictDiff(a, index));
      assert LossOf(VerdictDiffIn(index))(a) == Loss(VerdictDiff(a, index));
      assert GainOf(JustificationDiffIn(index))(a) == Gain(JustificationDiff(a, index));
      assert LossOf(JustificationDiffIn(index))(a) == Loss(JustificationDiff(a, index));
    }
    SumNonNegative(annos, GainOf(VerdictDiffIn(index)));
    SumNonNegative(annos, LossOf(VerdictDiffIn(index)));
    SumNonNegative(annos, GainOf(JustificationDiffIn(index)));
    SumNonNegative(annos, LossOf(JustificationDiffIn(index)));
  }

  /** Annotations without a matching seed item (every record saved without an `originalId`) contribute nothing. */
  lemma UnmatchedContributeNothing(annos: seq<Annotation>, index: map<string, AnnotationItem>)
    requires forall i :: 0 <= i < |annos| ==> SeedOf(annos[i], index).None?
    ensures CountDiffSpec(annos, index) == CountDiffStats(0, 0, 0, 0)
  {
    SumZero(annos, GainOf(VerdictDiffIn(index)));
    SumZero(annos, LossOf(VerdictDiffIn(index)));
    SumZero(annos, GainOf(JustificationDiffIn(index)));
    SumZero(annos, LossOf(JustificationDiffIn(index)));
  }

  // ---------------------------------------------------------------------------
  // Timing

  /** `if (anno.durationSeconds)`: present and non-zero. */
  predicate Timed(a: Annotation) { a.durationSeconds.Some? && a.durationSeconds.value != 0 }

  function TimedSeconds(a: Annotation): int { if Timed(a) then a.durationSeconds.value else 0 }

  /** The timing reducer: total seconds and number of timed annotations. */
  method TimeTotals(annos: seq<Annotation>) returns (totalTimeInSeconds: int, count: nat)
    ensures totalTimeInSeconds == Sum(annos, TimedSeconds)
    ensures count == Count(annos, Timed)
  {
    totalTimeInSeconds, count := 0, 0;
    for i := 0 to |annos|
      invariant totalTimeInSeconds == Sum(annos[..i], TimedSeconds)
      invariant count == Count(annos[..i], Timed)
    {
      assert annos[..i + 1][..i] == annos[..i];
      if annos[i].durationSeconds.Some? && annos[i].durationSeconds.value != 0 {
        totalTimeInSeconds := totalTimeInSeconds + annos[i].durationSeconds.value;
        count := count + 1;
      }
    }
    assert annos[..|annos|] == annos;
  }

  /** `count > 0 ? total / count : 0`. */
  function Average(total: int, count: nat): real {
    if count > 0 then total as real / count as real else 0.0
  }

  /** A quotient of a total lying between `count * lo` and `count * hi` lies between `lo` and `hi`. */
  lemma AverageBetween(total: int, count: nat, lo: int, hi: int)
    requires count > 0 && count * lo <= total <= count * hi
    ensures lo as real <= Average(total, count) <= hi as real
  {
    var n := count as real;
    var q := total as real / n;
    assert q * n == total as real;
    assert n * (lo as real) <= q * n <= n * (hi as real);
  }

  /** The summed seconds lie between `lo` and `hi` times the number of timed annotations. */
  lemma TimedSumBounds(annos: seq<Annotation>, lo: int, hi: int)
    requires forall i :: 0 <= i < |annos| && Timed(annos[i]) ==> lo <= annos[i].durationSeconds.value <= hi
    ensures Count(annos, Timed) * lo <= Sum(annos, TimedSeconds) <= Count(annos, Timed) * hi
  {
    var timed := Filter(annos, Timed);
    FilterMembers(annos, Timed);
    SumFilter(annos, Timed, TimedSeconds);
    forall i | 0 <= i < |timed| ensures lo <= TimedSeconds(timed[i]) <= hi {
      assert timed[i] in timed;
      var k :| 0 <= k < |annos| && annos[k] == timed[i];
    }
    SumBounds(timed, TimedSeconds, lo, hi);
  }

  /** The average lies between the shortest and the longest timed duration. */
  lemma AverageWithinBounds(annos: seq<Annotation>, lo: int, hi: int)
    requires forall i :: 0 <= i < |annos| && Timed(annos[i]) ==> lo <= annos[i].durationSeconds.value <= hi
    requires Count(annos, Timed) > 0
    ensures lo as real <= Average(Sum(annos, TimedSeconds), Count(annos, Timed)) <= hi as real
  {
    TimedSumBounds(annos, lo, hi);
    AverageBetween(Sum(annos, TimedSeconds), Count(annos, Timed), lo, hi);
  }

  // ---------------------------------------------------------------------------
  // One row per annotator

  /** `total > 0 ? (finished / total) * 100 : 0`. */
  function Percentage(finished: nat, total: nat): real {
    if total > 0 then (finished as real / total as real) * 100.0 else 0.0
  }

  /** The percentage is 0 without a denominator, scales back to the finished count, and is at most 100 when nothing exceeds the denominator. */
  lemma PercentageFacts(finished: nat, total: nat)
    ensures total == 0 ==> Percentage(finished, total) == 0.0
    ensures total > 0 ==> Percentage(finished, total) * total as real == 100.0 * finished as real
    ensures 0.0 <= Percentage(finished, total)
    ensures finished <= total ==> Percentage(finished, total) <= 100.0
  {
    if total > 0 {
      var q := finished as real / total as real;
      assert q * total as real == finished as real;
      assert 0.0 <= q;
      if finished <= total {
        assert q <= 1.0;
      }
    }
  }

  /**
   * The row built for `user` from that user's assignments `mine` and
   * annotations `annos`, the number of items and the item index.
   */
  function Row(user: User, mine: seq<ItemAssignment>, annos: seq<Annotation>, itemCount: nat,
               index: map<string, AnnotationItem>, isPilotView: bool): AnnotatorStat
  {
    var completed := Count(mine, IsCompleted);
    var nonFatwa := Count(mine, IsNonFatwa);
    var question := Count(annos, QuestionFlagged);
    var verdict := Sum(annos, VerdictRevisionCount);
    var justification := Sum(annos, JustificationRevisionCount);
    var total := Sum(annos, TimedSeconds);
    AnnotatorStat(
      user, |mine|, completed, Count(mine, IsDraft), nonFatwa,
      Percentage(completed + nonFatwa, if isPilotView then itemCount else |mine|),
      completed + nonFatwa,
      RevisionStats(question, verdict, justification, question + verdict + justification),
      CountDiffSpec(annos, index),
      TimingStats(Average(total, Count(annos, Timed)), total))
  }

  /** The row `calculateAnnotatorStats` builds for `user`. */
  function StatFor(user: User, assignments: seq<ItemAssignment>, annotations: seq<Annotation>,
                   items: seq<AnnotationItem>, isPilotView: bool): AnnotatorStat
  {
    Row(user, WithKey(assignments, AssignmentUser, user.id), WithKey(annotations, AnnotationUser, user.id),
      |items|, ItemIndex(items), isPilotView)
  }

  /** The body of the `annotators.map` callback: counts, percentage, the three reducers. */
  method RowFor(user: User, userAssignments: seq<ItemAssignment>, userAnnotations: seq<Annotation>, itemCount: nat,
                itemsByOriginalId: map<string, AnnotationItem>, isPilotView: bool) returns (row: AnnotatorStat)
    ensures row == Row(user, userAssignments, userAnnotations, itemCount, itemsByOriginalId, isPilotView)
  {
    var assignedCount := |userAssignments|;
    var completedCount := Count(userAssignments, IsCompleted);
    var draftCount := Count(userAssignments, IsDraft);
    var nonFatwaCount := Count(userAssignments, IsNonFatwa);
    var totalFinished := completedCount + nonFatwaCount;
    var totalItemsForPercentage := if isPilotView then itemCount else assignedCount;
    var completionPercentage := Percentage(totalFinished, totalItemsForPercentage);
    var questionRevisions, verdictRevisions, justificationRevisions := CountRevisions(userAnnotations);
    var totalRevisions := questionRevisions + verdictRevisions + justificationRevisions;
    var countDiffStats := CountDifferences(userAnnotations, itemsByOriginalId);
    var totalTime, timedCount := TimeTotals(userAnnotations);
    var averageTimeInSeconds := Average(totalTime, timedCount);
    row := AnnotatorStat(user, assignedCount, completedCount, draftCount, nonFatwaCount,
      completionPercentage, totalFinished,
      RevisionStats(questionRevisions, verdictRevisions, justificationRevisions, totalRevisions),
      countDiffStats, TimingStats(averageTimeInSeconds, totalTime));
    RowAssembly(user, userAssignments, userAnnotations, itemCount, itemsByOriginalId, isPilotView,
      totalFinished, totalItemsForPercentage,
      questionRevisions, verdictRevisions, justificationRevisions, countDiffStats, totalTime, timedCount);
  }

  /** The row assembled from the counts and the reducers' results is the specified row. */
  lemma RowAssembly(user: User, mine: seq<ItemAssignment>, annos: seq<Annotation>, itemCount: nat,
                    index: map<string, AnnotationItem>, isPilotView: bool, finished: nat, denominator: nat,
                    question: int, verdict: int, justification: int, countDiff: CountDiffStats, total: int, timed: nat)
    requires finished == Count(mine, IsCompleted) + Count(mine, IsNonFatwa)
    requires denominator == if isPilotView then itemCount else |mine|
    requires question == Count(annos, QuestionFlagged)
    requires verdict == Sum(annos, VerdictRevisionCount)
    requires justification == Sum(annos, JustificationRevisionCount)
    requires countDiff == CountDiffSpec(annos, index)
    requires total == Sum(annos, TimedSeconds) && timed == Count(annos, Timed)
    ensures Row(user, mine, annos, itemCount, index, isPilotView)
      == AnnotatorStat(user, |mine|, Count(mine, IsCompleted), Count(mine, IsDraft), Count(mine, IsNonFatwa),
           Percentage(finished, denominator), finished,
           RevisionStats(question, verdict, justification, question + verdict + justification),
           countDiff, TimingStats(Average(total, timed), total))
  {
  }

  /** `a.name.localeCompare(b.name) <= 0`, with the order on names as a parameter. */
  function ByName(nameLe: (string, string) -> bool): (AnnotatorStat, AnnotatorStat) -> bool {
    (a: AnnotatorStat, b: AnnotatorStat) => nameLe(a.user.name, b.user.name)
  }

  /** What `calculateAnnotatorStats` returns. */
  function AnnotatorStats(annotators: seq<User>, assignments: seq<ItemAssignment>, annotations: seq<Annotation>,
                          items: seq<AnnotationItem>, isPilotView: bool, nameLe: (string, string) -> bool): seq<AnnotatorStat>
  {
    SortBy(seq(|annotators|, i requires 0 <= i < |annotators| => StatFor(annotators[i], assignments, annotations, items, isPilotView)),
      ByName(nameLe))
  }

  /** The grouped lists of `user`, looked up with `|| []`, and the row the callback builds from them. */
  method StatOf(user: User, assignments: seq<ItemAssignment>, annotations: seq<Annotation>,
                items: seq<AnnotationItem>, isPilotView: bool,
                assignmentsByUser: map<string, seq<ItemAssignment>>, annotationsByUser: map<string, seq<Annotation>>,
                itemsByOriginalId: map<string, AnnotationItem>)
    returns (row: AnnotatorStat)
    requires forall k :: k in assignmentsByUser ==> assignmentsByUser[k] == WithKey(assignments, AssignmentUser, k)
    requires forall k :: k !in assignmentsByUser ==> WithKey(assignments, AssignmentUser, k) == []
    requires forall k :: k in annotationsByUser ==> annotationsByUser[k] == WithKey(annotations, AnnotationUser, k)
    requires forall k :: k !in annotationsByUser ==> WithKey(annotations, AnnotationUser, k) == []
    requires itemsByOriginalId == ItemIndex(items)
    ensures row == StatFor(user, assignments, annotations, items, isPilotView)
  {
    var userAssignments := if user.id in assignmentsByUser then assignmentsByUser[user.id] else [];
    var userAnnotations := if user.id in annotationsByUser then annotationsByUser[user.id] else [];
    row := RowFor(user, userAssignments, userAnnotations, |items|, itemsByOriginalId, isPilotView);
  }

  /**
   * `calculateAnnotatorStats(annotators, assignments, annotations, items, isPilotView)`:
   * groups assignments and annotations by user, runs the three reducers for
   * each annotator, and sorts the rows by name.
   */
  method CalculateAnnotatorStats(annotators: seq<User>, assignments: seq<ItemAssignment>, annotations: seq<Annotation>,
                                 items: seq<AnnotationItem>, isPilotView: bool, nameLe: (string, string) -> bool)
    returns (rows: seq<AnnotatorStat>)
    ensures rows == AnnotatorStats(annotators, assignments, annotations, items, isPilotView, nameLe)
  {
    var assignmentsByUser := GroupBy(assignments, AssignmentUser);
    var annotationsByUser := GroupBy(annotations, AnnotationUser);
    var itemsByOriginalId := ItemIndex(items);
    var unsorted := StatsOf(annotators, assignments, annotations, items, isPilotView,
      assignmentsByUser, annotationsByUser, itemsByOriginalId);
    rows := SortBy(unsorted, ByName(nameLe));
  }

  /** The `annotators.map` over the grouped lists: one row per annotator, in the annotators' order. */
  method StatsOf(annotators: seq<User>, assignments: seq<ItemAssignment>, annotations: seq<Annotation>,
                 items: seq<AnnotationItem>, isPilotView: bool,
                 assignmentsByUser: map<string, seq<ItemAssignment>>, annotationsByUser: map<string, seq<Annotation>>,
                 itemsByOriginalId: map<string, AnnotationItem>)
    returns (unsorted: seq<AnnotatorStat>)
    requires forall k :: k in assignmentsByUser ==> assignmentsByUser[k] == WithKey(assignments, AssignmentUser, k)
    requires forall k :: k !in assignmentsByUser ==> WithKey(assignments, AssignmentUser, k) == []
    requires forall k :: k in annotationsByUser ==> annotationsByUser[k] == WithKey(annotations, AnnotationUser, k)
    requires forall k :: k !in annotationsByUser ==> WithKey(annotations, AnnotationUser, k) == []
    requires itemsByOriginalId == ItemIndex(items)
    ensures unsorted == seq(|annotators|, i requires 0 <= i < |annotators| =>
      StatFor(annotators[i], assignments, annotations, items, isPilotView))
  {
    unsorted := [];
    for i := 0 to |annotators|
      invariant |unsorted| == i
      invariant forall j :: 0 <= j < i ==> unsorted[j] == StatFor(annotators[j], assignments, annotations, items, isPilotView)
    {
      var row := StatOf(annotators[i], assignments, annotations, items, isPilotView,
        assignmentsByUser, annotationsByUser, itemsByOriginalId);
      unsorted := unsorted + [row];
    }
  }

  // ---------------------------------------------------------------------------
  // Properties of the rows

  /**
   * The counters of one row: the finished count is completed plus non-fatwa,
   * the three status counts never exceed the assignments (the statuses are
   * disjoint), the percentage is taken over the number of items in the
   * pilot view and over the assignments otherwise, so it is at most 100
   * outside the pilot view, and the revision total is the sum of its three
   * parts.
   */
  lemma StatCounters(user: User, mine: seq<ItemAssignment>, annos: seq<Annotation>, itemCount: nat,
                     index: map<string, AnnotationItem>, isPilotView: bool)
    ensures var r := Row(user, mine, annos, itemCount, index, isPilotView);
      var denominator := if isPilotView then itemCount else r.assignedCount;
      && r.user == user
      && r.assignedCount == |mine|
      && r.totalFinished == r.completedCount + r.nonFatwaCount
      && r.completedCount + r.draftCount + r.nonFatwaCount <= r.assignedCount
      && r.completionPercentage == Percentage(r.totalFinished, denominator)
      && (!isPilotView ==> 0.0 <= r.completionPercentage <= 100.0)
      && r.revisionStats.totalRevisions
         == r.revisionStats.questionRevisions + r.revisionStats.verdictRevisions + r.revisionStats.justificationRevisions
  {
    ThreeStatuses(mine);
    var finished := Count(mine, IsCompleted) + Count(mine, IsNonFatwa);
    PercentageFacts(finished, if isPilotView then itemCount else |mine|);
  }

  /** An assignment has one status, so the three status counts add up to at most the assignments. */
  lemma {:induction false} ThreeStatuses(s: seq<ItemAssignment>)
    ensures Count(s, IsCompleted) + Count(s, IsDraft) + Count(s, IsNonFatwa) <= |s|
  {
    if s != [] {
      var init := s[..|s| - 1];
      ThreeStatuses(init);
      assert Filter(s, IsCompleted) == Filter(init, IsCompleted) + (if IsCompleted(s[|s| - 1]) then [s[|s| - 1]] else []);
      assert Filter(s, IsDraft) == Filter(init, IsDraft) + (if IsDraft(s[|s| - 1]) then [s[|s| - 1]] else []);
      assert Filter(s, IsNonFatwa) == Filter(init, IsNonFatwa) + (if IsNonFatwa(s[|s| - 1]) then [s[|s| - 1]] else []);
    }
  }

  /** An annotator with no assignments and no annotations gets an all-zero row. */
  lemma IdleAnnotatorRow(user: User, assignments: seq<ItemAssignment>, annotations: seq<Annotation>,
                         items: seq<AnnotationItem>, isPilotView: bool)
    requires forall i :: 0 <= i < |assignments| ==> assignments[i].userId != user.id
    requires forall i :: 0 <= i < |annotations| ==> annotations[i].userId != user.id
    ensures var r := StatFor(user, assignments, annotations, items, isPilotView);
      && r.assignedCount == 0 && r.completedCount == 0 && r.draftCount == 0 && r.nonFatwaCount == 0
      && r.totalFinished == 0 && r.completionPercentage == 0.0
      && r.revisionStats == RevisionStats(0, 0, 0, 0)
      && r.countDiffStats == CountDiffStats(0, 0, 0, 0)
      && r.timingStats == TimingStats(0.0, 0)
  {
    WithKeyNone(assignments, AssignmentUser, user.id);
    WithKeyNone(annotations, AnnotationUser, user.id);
  }

  /**
   * There is exactly one row per annotator: the rows are the annotators'
   * rows, each once, reordered; and they are in name order when the name
   * order is a total preorder.
   */
  lemma OneRowPerAnnotator(annotators: seq<User>, assignments: seq<ItemAssignment>, annotations: seq<Annotation>,
                           items: seq<AnnotationItem>, isPilotView: bool, nameLe: (string, string) -> bool)
    ensures var rows := AnnotatorStats(annotators, assignments, annotations, items, isPilotView, nameLe);
      && |rows| == |annotators|
      && multiset(rows) == multiset(seq(|annotators|, i requires 0 <= i < |annotators| =>
           StatFor(annotators[i], assignments, annotations, items, isPilotView)))
      && (forall r :: r in rows ==> exists i :: 0 <= i < |annotators| && r.user == annotators[i])
  {
    var unsorted := seq(|annotators|, i requires 0 <= i < |annotators| =>
      StatFor(annotators[i], assignments, annotations, items, isPilotView));
    var rows := AnnotatorStats(annotators, assignments, annotations, items, isPilotView, nameLe);
    forall r | r in rows ensures exists i :: 0 <= i < |annotators| && r.user == annotators[i] {
      assert r in multiset(rows);
      assert r in unsorted;
      var i :| 0 <= i < |unsorted| && unsorted[i] == r;
    }
  }

  lemma RowsSortedByName(annotators: seq<User>, assignments: seq<ItemAssignment>, annotations: seq<Annotation>,
                         items: seq<AnnotationItem>, isPilotView: bool, nameLe: (string, string) -> bool)
    requires TotalPreorder(nameLe)
    ensures var rows := AnnotatorStats(annotators, assignments, annotations, items, isPilotView, nameLe);
      forall i, j :: 0 <= i < j < |rows| ==> nameLe(rows[i].user.name, rows[j].user.name)
  {
    var le := ByName(nameLe);
    assert TotalPreorder(le) by {
      forall a, b ensures le(a, b) || le(b, a) {
        assert nameLe(a.user.name, b.user.name) || nameLe(b.user.name, a.user.name);
      }
      forall a, b, c | le(a, b) && le(b, c) ensures le(a, c) {
        assert nameLe(a.user.name, b.user.name) && nameLe(b.user.name, c.user.name);
      }
    }
    SortBySorted(seq(|annotators|, i requires 0 <= i < |annotators| =>
      StatFor(annotators[i], assignments, annotations, items, isPilotView)), le);
  }
}
