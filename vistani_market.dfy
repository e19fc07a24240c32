/**
 * vistani_market.py: the Vistani Market refreshes every third day, counted from an
 * authoritative start date, by running an external generator script and posting its
 * output to a channel in four pieces cut at literal markers in the text.
 */
module VistaniMarket {
  import opened Wrappers
  import opened Text
  import opened Calendar
  import opened Discord
  import opened Effects
  import Utils

  const ScriptUrl := "https://raw.githubusercontent.com/ItsQc/Ravenloft-Tables/main/marketGenerator.py"
  const OutputChannel := "helper-spam"
  /** The 23:00 UTC firing time belongs to the task scheduler, which is not modelled. */
  const RefreshHour := 23
  const RefreshEpoch: Date := CivilDate(2022, 12, 2)
  const RefreshIntervalDays := 3

  const ScrollsMarker := "**Spell Scrolls**"
  const MaterialsMarker := "**Special Materials**"
  const AnnouncementMarker := "@Players"

  /** `(today - REFRESH_EPOCH).days`; negative before the epoch. */
  function DaysSinceEpoch(today: Date): int {
    Ordinal(today) - Ordinal(RefreshEpoch)
  }

  /**
   * `_should_refresh_today`: `delta.days % REFRESH_INTERVAL_DAYS == 0`. Python's `%` floors;
   * for the positive divisor 3 it agrees with Dafny's `%`, so the remainder is never negative.
   */
  predicate ShouldRefreshToday(today: Date) {
    DaysSinceEpoch(today) % RefreshIntervalDays == 0
  }

  /** A refresh day is one a whole number of 3-day periods from the epoch, before or after it. */
  lemma ShouldRefreshIffMultiple(today: Date)
    ensures ShouldRefreshToday(today) <==> exists q: int :: DaysSinceEpoch(today) == 3 * q
  {
    var d := DaysSinceEpoch(today);
    if ShouldRefreshToday(today) {
      assert d == 3 * (d / 3);
    }
  }

  lemma EpochIsRefreshDay()
    ensures ShouldRefreshToday(RefreshEpoch)
  {
  }

  /** Days that are a multiple of three days apart get the same answer. */
  lemma RefreshPeriodic(a: Date, b: Date, q: int)
    requires Ordinal(b) == Ordinal(a) + 3 * q
    ensures ShouldRefreshToday(a) == ShouldRefreshToday(b)
  {
  }

  /** After a refresh day, the next two calendar days are not refresh days and the third is. */
  lemma RefreshEveryThirdDay(d: Date, d1: Date, d2: Date, d3: Date)
    requires d != LastDate && d1 == NextDay(d)
    requires d1 != LastDate && d2 == NextDay(d1)
    requires d2 != LastDate && d3 == NextDay(d2)
    ensures ShouldRefreshToday(d) ==>
      !ShouldRefreshToday(d1) && !ShouldRefreshToday(d2) && ShouldRefreshToday(d3)
  {
    var x := DaysSinceEpoch(d);
    NextDayOrdinal(d);
    NextDayOrdinal(d1);
    NextDayOrdinal(d2);
    assert DaysSinceEpoch(d1) == x + 1 && DaysSinceEpoch(d2) == x + 2 && DaysSinceEpoch(d3) == x + 3;
    ThirdDayArithmetic(x);
  }

  lemma ThirdDayArithmetic(x: int)
    ensures x % 3 == 0 ==> (x + 1) % 3 != 0 && (x + 2) % 3 != 0 && (x + 3) % 3 == 0
  {
  }

  /** The chunks in order, joined back into one text. */
  function Concat(chunks: seq<string>): string {
    if chunks == [] then [] else chunks[0] + Concat(chunks[1..])
  }

  lemma ConcatFour(a: string, b: string, c: string, d: string)
    ensures Concat([a, b, c, d]) == a + b + c + d
  {
    assert [a, b, c, d][1..] == [b, c, d];
    assert [b, c, d][1..] == [c, d];
    assert [c, d][1..] == [d];
    assert [d][1..] == [];
    assert Concat([d]) == d;
    assert Concat([c, d]) == c + d;
    assert Concat([b, c, d]) == b + (c + d);
  }

  /**
   * `_chunk_output`: cuts the text at the first `**Spell Scrolls**`, the first
   * `**Special Materials**` and the first `@Players` into items, scrolls, materials and
   * announcement; `str.index` raises ValueError for the first marker (in that order) that
   * is missing.
   */
  function ChunkOutput(output: string): (r: Result<seq<string>, Fault>)
    ensures r.Success? <==>
      Contains(output, ScrollsMarker) && Contains(output, MaterialsMarker) && Contains(output, AnnouncementMarker)
    ensures !Contains(output, ScrollsMarker) ==> r == Failure(ValueError(ScrollsMarker))
    ensures Contains(output, ScrollsMarker) && !Contains(output, MaterialsMarker) ==>
      r == Failure(ValueError(MaterialsMarker))
    ensures Contains(output, ScrollsMarker) && Contains(output, MaterialsMarker) ==>
      !Contains(output, AnnouncementMarker) ==> r == Failure(ValueError(AnnouncementMarker))
    ensures r.Success? ==> |r.value| == 4
  {
    match Index(output, ScrollsMarker)
    case None => Failure(ValueError(ScrollsMarker))
    case Some(scrollIndex) =>
      match Index(output, MaterialsMarker)
      case None => Failure(ValueError(MaterialsMarker))
      case Some(materialsIndex) =>
        match Index(output, AnnouncementMarker)
        case None => Failure(ValueError(AnnouncementMarker))
        case Some(announcementIndex) =>
          var items := output[..scrollIndex];
          var scrolls := Slice(output, scrollIndex, materialsIndex);
          var materials := Slice(output, materialsIndex, announcementIndex);
          var announcement := output[announcementIndex..];
          Success([items, scrolls, materials, announcement])
  }

  /** The first occurrences of the three markers come in the order the generator writes them. */
  predicate MarkersInOrder(output: string) {
    var s, m, a := Index(output, ScrollsMarker), Index(output, MaterialsMarker), Index(output, AnnouncementMarker);
    s.Some? && m.Some? && a.Some? && s.value <= m.value <= a.value
  }

  /** With the markers in order, the four chunks put back together are the script output. */
  lemma ChunkRoundTrip(output: string)
    requires MarkersInOrder(output)
    ensures ChunkOutput(output).Success? && Concat(ChunkOutput(output).value) == output
  {
    var si, mi, ai := Index(output, ScrollsMarker).value, Index(output, MaterialsMarker).value,
                      Index(output, AnnouncementMarker).value;
    var c := ChunkOutput(output).value;
    assert c == [output[..si], output[si..mi], output[mi..ai], output[ai..]];
    ConcatFour(c[0], c[1], c[2], c[3]);
    SplitThrice(output, si, mi, ai);
  }

  lemma SplitThrice(s: string, i: nat, j: nat, k: nat)
    requires i <= j <= k <= |s|
    ensures s[..i] + s[i..j] + s[j..k] + s[k..] == s
  {
    assert s[..i] + s[i..j] == s[..j];
    assert s[..j] + s[j..k] == s[..k];
  }

  /**
   * With the markers in order, the materials and announcement chunks begin with their
   * markers: `@Players` cannot begin inside `**Special Materials**`, which holds no `@`.
   */
  lemma ChunksStartWithMarkers(output: string)
    requires MarkersInOrder(output)
    ensures ChunkOutput(output).Success?
    ensures var c := ChunkOutput(output).value;
      StartsWith(c[2], MaterialsMarker) && StartsWith(c[3], AnnouncementMarker)
  {
    var si, mi, ai := Index(output, ScrollsMarker).value, Index(output, MaterialsMarker).value,
                      Index(output, AnnouncementMarker).value;
    var c := ChunkOutput(output).value;
    assert c == [output[..si], output[si..mi], output[mi..ai], output[ai..]];
    AnnouncementAfterMaterials(output, mi, ai);
    assert c[2][..|MaterialsMarker|] == output[mi..mi + |MaterialsMarker|];
    assert c[3][..|AnnouncementMarker|] == output[ai..ai + |AnnouncementMarker|];
  }

  /**
   * The scrolls chunk begins with its marker when the first `**Special Materials**` starts
   * after the whole first `**Spell Scrolls**`.
   */
  lemma ScrollsChunkStartsWithMarker(output: string)
    requires MarkersInOrder(output)
    requires Index(output, ScrollsMarker).value + |ScrollsMarker| <= Index(output, MaterialsMarker).value
    ensures ChunkOutput(output).Success? && StartsWith(ChunkOutput(output).value[1], ScrollsMarker)
  {
    var si, mi, ai := Index(output, ScrollsMarker).value, Index(output, MaterialsMarker).value,
                      Index(output, AnnouncementMarker).value;
    var c := ChunkOutput(output).value;
    assert c[1] == output[si..mi];
    assert c[1][..|ScrollsMarker|] == output[si..si + |ScrollsMarker|];
  }

  /** An occurrence of `@Players` at or after one of `**Special Materials**` starts after its end. */
  lemma AnnouncementAfterMaterials(output: string, mi: nat, ai: nat)
    requires OccursAt(output, MaterialsMarker, mi) && OccursAt(output, AnnouncementMarker, ai) && mi <= ai
    ensures mi + |MaterialsMarker| <= ai
  {
    assert output[ai] == AnnouncementMarker[0] == '@';
    assert forall k :: mi <= k < mi + |MaterialsMarker| ==> output[k] == MaterialsMarker[k - mi];
    assert forall k :: 0 <= k < |MaterialsMarker| ==> MaterialsMarker[k] != '@';
  }

  /** `**Spell Scrolls**` without its closing `**`. */
  const ScrollsStem := "**Spell Scrolls"

  /** A script output whose first `**Special Materials**` overlaps the first `**Spell Scrolls**`. */
  const OverlappingOutput := ScrollsStem + MaterialsMarker + AnnouncementMarker

  /** `p` does not occur at `j` when one of its characters differs there. */
  lemma DiffersAt(s: string, p: string, j: nat, k: nat)
    requires k < |p| && j + k < |s| && s[j + k] != p[k]
    ensures !OccursAt(s, p, j)
  {
    if j + |p| <= |s| {
      assert s[j..j + |p|][k] == s[j + k];
    }
  }

  lemma OverlappingScrollsAt()
    ensures Index(OverlappingOutput, ScrollsMarker) == Some(0)
  {
    var o := OverlappingOutput;
    assert o[..15] == ScrollsStem && o[15..17] == "**";
    assert o[0..17] == ScrollsMarker;
  }

  lemma OverlappingMaterialsAt()
    ensures Index(OverlappingOutput, MaterialsMarker) == Some(15)
  {
    var o := OverlappingOutput;
    assert o[..15] == ScrollsStem;
    assert o[15..36] == MaterialsMarker;
    assert OccursAt(o, MaterialsMarker, 15);
    assert forall k :: 2 <= k < 15 ==> ScrollsStem[k] != '*';
    forall j | 0 <= j < 15 ensures !OccursAt(o, MaterialsMarker, j) {
      if j == 0 {
        DiffersAt(o, MaterialsMarker, 0, 5);
      } else if j == 1 {
        DiffersAt(o, MaterialsMarker, 1, 1);
      } else {
        assert o[j] == ScrollsStem[j];
        DiffersAt(o, MaterialsMarker, j, 0);
      }
    }
  }

  lemma OverlappingAnnouncementAt()
    ensures Index(OverlappingOutput, AnnouncementMarker) == Some(36)
  {
    var o := OverlappingOutput;
    assert o[36..] == AnnouncementMarker;
    assert OccursAt(o, AnnouncementMarker, 36);
    forall j | 0 <= j < 36 ensures !OccursAt(o, AnnouncementMarker, j) {
      DiffersAt(o, AnnouncementMarker, j, 0);
    }
  }

  /** The chunks of an output whose three markers are first found at `si`, `mi` and `ai`. */
  lemma ChunksAt(output: string, si: nat, mi: nat, ai: nat)
    requires Index(output, ScrollsMarker) == Some(si) && Index(output, MaterialsMarker) == Some(mi)
    requires Index(output, AnnouncementMarker) == Some(ai)
    ensures ChunkOutput(output) ==
      Success([output[..si], Slice(output, si, mi), Slice(output, mi, ai), output[ai..]])
  {
  }

  /**
   * `**Special Materials**` can begin inside the closing `**` of `**Spell Scrolls**`: the
   * markers are then in order, and the scrolls chunk is only `**Spell Scrolls`, without its
   * marker.
   */
  lemma ScrollsChunkCanMissMarker()
    ensures MarkersInOrder(OverlappingOutput) && ChunkOutput(OverlappingOutput).Success?
    ensures ChunkOutput(OverlappingOutput).value[1] == "**Spell Scrolls"
    ensures !StartsWith(ChunkOutput(OverlappingOutput).value[1], ScrollsMarker)
  {
    OverlappingScrollsAt();
    OverlappingMaterialsAt();
    OverlappingAnnouncementAt();
    ChunksAt(OverlappingOutput, 0, 15, 36);
    assert OverlappingOutput[0..15] == ScrollsStem;
  }

  /** With the markers in order, no chunk holds the marker of a later chunk. */
  lemma ChunksHoldNoLaterMarker(output: string)
    requires MarkersInOrder(output)
    ensures var c := ChunkOutput(output).value;
      !Contains(c[0], ScrollsMarker) && !Contains(c[0], MaterialsMarker) && !Contains(c[0], AnnouncementMarker) &&
      !Contains(c[1], MaterialsMarker) && !Contains(c[1], AnnouncementMarker) &&
      !Contains(c[2], AnnouncementMarker)
  {
    var si, mi, ai := Index(output, ScrollsMarker).value, Index(output, MaterialsMarker).value,
                      Index(output, AnnouncementMarker).value;
    var c := ChunkOutput(output).value;
    assert c[0] == output[..si] && c[1] == output[si..mi] && c[2] == output[mi..ai];
    assert !Contains(output[0..si], ScrollsMarker) by { NoMarkerBefore(output, ScrollsMarker, 0, si); }
    assert !Contains(output[0..si], MaterialsMarker) by { NoMarkerBefore(output, MaterialsMarker, 0, si); }
    assert !Contains(output[0..si], AnnouncementMarker) by { NoMarkerBefore(output, AnnouncementMarker, 0, si); }
    assert !Contains(output[si..mi], MaterialsMarker) by { NoMarkerBefore(output, MaterialsMarker, si, mi); }
    assert !Contains(output[si..mi], AnnouncementMarker) by { NoMarkerBefore(output, AnnouncementMarker, si, mi); }
    assert !Contains(output[mi..ai], AnnouncementMarker) by { NoMarkerBefore(output, AnnouncementMarker, mi, ai); }
    assert output[..si] == output[0..si];
  }

  /** A piece that ends before the first occurrence of `p` does not contain `p`. */
  lemma NoMarkerBefore(s: string, p: string, i: nat, j: nat)
    requires i <= j <= |s| && |p| > 0
    requires forall k :: 0 <= k < j ==> !OccursAt(s, p, k)
    ensures !Contains(s[i..j], p)
  {
    forall k | 0 <= k && k + |p| <= j - i ensures !OccursAt(s[i..j], p, k) {
      assert i + k < j;
      assert !OccursAt(s, p, i + k);
      assert s[i..j][k..k + |p|] == s[i + k..i + k + |p|];
    }
  }

  /** The items chunk never holds `**Spell Scrolls**`: the cut is at its first occurrence. */
  lemma ItemsHaveNoScrolls(output: string)
    requires ChunkOutput(output).Success?
    ensures !Contains(ChunkOutput(output).value[0], ScrollsMarker)
  {
    NoMarkerBefore(output, ScrollsMarker, 0, Index(output, ScrollsMarker).value);
  }

  /** Out of order, some text is repeated, so the chunks no longer add up to the output. */
  lemma ChunkRoundTripNeedsOrder(output: string)
    requires ChunkOutput(output).Success? && !MarkersInOrder(output)
    ensures |Concat(ChunkOutput(output).value)| > |output|
  {
    var si, mi, ai := Index(output, ScrollsMarker).value, Index(output, MaterialsMarker).value,
                      Index(output, AnnouncementMarker).value;
    var c := ChunkOutput(output).value;
    ConcatFour(c[0], c[1], c[2], c[3]);
  }

  /**
   * `refresh(guild, output_channel, force)`: skips a non-scheduled day unless forced;
   * otherwise looks up the channel by name, runs the generator script, chunks its output
   * and sends every chunk, in order, to that channel. A missing marker raises before
   * anything is sent; an unknown channel name fails at the first send.
   */
  method Refresh(today: Date, channels: seq<Channel>, script: Utils.ScriptRunner,
                 outputChannel: string := OutputChannel, force: bool := false)
    returns (r: Outcome)
    modifies script, channels
    ensures !ShouldRefreshToday(today) && !force ==>
      r == Skipped && script.runs == old(script.runs) &&
      forall c :: c in channels ==> c.sent == old(c.sent)
    ensures ShouldRefreshToday(today) || force ==>
      script.runs == old(script.runs) + [ScriptUrl] &&
      var target := FindChannel(channels, outputChannel);
      match ChunkOutput(script.output)
      case Failure(e) =>
        r == Raised(e) && forall c :: c in channels ==> c.sent == old(c.sent)
      case Success(chunks) =>
        if target == null then
          r == Raised(AttributeError) && forall c :: c in channels ==> c.sent == old(c.sent)
        else
          r == Completed && target.sent == old(target.sent) + PlainMessages(chunks) &&
          forall c :: c in channels && c != target ==> c.sent == old(c.sent)
  {
    if !ShouldRefreshToday(today) && !force {
      return Skipped;
    }
    var channel := FindChannel(channels, outputChannel);
    var output := script.RunScript(ScriptUrl);
    var chunked := ChunkOutput(output);
    if chunked.Failure? {
      return Raised(chunked.error);
    }
    var messages := chunked.value;
    if channel == null {
      return Raised(AttributeError);
    }
    for i := 0 to |messages|
      invariant channel.sent == old(channel.sent) + PlainMessages(messages[..i])
      invariant forall c :: c in channels && c != channel ==> c.sent == old(c.sent)
      invariant script.runs == old(script.runs) + [ScriptUrl]
    {
      assert PlainMessages(messages[..i + 1]) == PlainMessages(messages[..i]) + [Plain(messages[i])];
      channel.Send(Plain(messages[i]));
    }
    assert messages[..|messages|] == messages;
    return Completed;
  }
}
