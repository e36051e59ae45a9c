/**
 * The logic of the public voting page: the countdown text shown under
 * "Valid until", the per-option colour map built when a poll is fetched, and
 * the optimistic increment applied after a vote is accepted.
 */
module PublicVote {
  import opened Wrappers
  import opened Text
  import opened Color
  import opened Collections

  // ---------------------------------------------------------------------------
  // Countdown
  // ---------------------------------------------------------------------------

  /** A remaining time split into units; a month is taken to be 30 days. */
  datatype Countdown = Countdown(months: nat, days: nat, hours: nat, minutes: nat, seconds: nat)

  /** Every unit below months is smaller than the next unit up. */
  predicate InRange(c: Countdown) {
    c.days < 30 && c.hours < 24 && c.minutes < 60 && c.seconds < 60
  }

  /** The number of seconds a countdown stands for (2592000 s per month, 86400 s per day). */
  function TotalSeconds(c: Countdown): nat {
    c.months * 2592000 + c.days * 86400 + c.hours * 3600 + c.minutes * 60 + c.seconds
  }

  /** Splits a number of whole seconds into months, days, hours, minutes and seconds, largest first. */
  function Decompose(total: nat): (c: Countdown)
    ensures InRange(c) && TotalSeconds(c) == total
  {
    var months := total / 2592000;
    var inMonth := total % 2592000;
    var days := inMonth / 86400;
    var inDay := inMonth % 86400;
    var hours := inDay / 3600;
    var inHour := inDay % 3600;
    Countdown(months, days, hours, inHour / 60, inHour % 60)
  }

  /** An in-range countdown is the decomposition of its own total: the split is unique. */
  lemma DecomposeTotalSeconds(c: Countdown)
    requires InRange(c)
    ensures Decompose(TotalSeconds(c)) == c
  {
    var t := TotalSeconds(c);
    var inMonth := c.days * 86400 + c.hours * 3600 + c.minutes * 60 + c.seconds;
    var inDay := c.hours * 3600 + c.minutes * 60 + c.seconds;
    var inHour := c.minutes * 60 + c.seconds;
    assert t == c.months * 2592000 + inMonth && 0 <= inMonth < 2592000;
    assert t / 2592000 == c.months && t % 2592000 == inMonth;
    assert inMonth / 86400 == c.days && inMonth % 86400 == inDay;
    assert inDay / 3600 == c.hours && inDay % 3600 == inHour;
    assert inHour / 60 == c.minutes && inHour % 60 == c.seconds;
  }

  /**
   * The pieces of the countdown text: each of months, days, hours and minutes
   * only when it is non-zero, the seconds always, largest unit first.
   */
  function CountdownParts(c: Countdown): (parts: seq<string>)
    ensures |parts| >= 1 && parts[|parts| - 1] == Decimal(c.seconds) + "s"
  {
    UnitPart(c.months, "mo") + UnitPart(c.days, "d") + UnitPart(c.hours, "h") + UnitPart(c.minutes, "m") +
    [Decimal(c.seconds) + "s"]
  }

  /** The piece for one unit above seconds: the count and the unit word, or nothing when the count is zero. */
  function UnitPart(v: nat, unit: string): seq<string> {
    if v > 0 then [Decimal(v) + unit] else []
  }

  /** The countdown text: its parts joined by single spaces; it always ends with the seconds. */
  function Render(c: Countdown): (text: string)
    ensures |text| > |Decimal(c.seconds)| && text[|text| - |Decimal(c.seconds)| - 1..] == Decimal(c.seconds) + "s"
    ensures text != "Expired"
  {
    var parts := CountdownParts(c);
    var text := Join(parts, " ");
    assert text[|text| - 1] == 's';
    text
  }

  // Reading a countdown text back: the partner that shows the text is unambiguous.

  /** The unit words by rank: 0 months, 1 days, 2 hours, 3 minutes, 4 seconds. */
  function UnitName(rank: nat): string
    requires rank <= 4
  {
    if rank == 0 then "mo" else if rank == 1 then "d" else if rank == 2 then "h" else if rank == 3 then "m" else "s"
  }

  /** The rank of a unit word, if it is one. */
  function RankOf(word: string): (rank: Option<nat>)
    ensures rank.Some? ==> rank.value <= 4 && UnitName(rank.value) == word
  {
    if word == "mo" then Some(0)
    else if word == "d" then Some(1)
    else if word == "h" then Some(2)
    else if word == "m" then Some(3)
    else if word == "s" then Some(4)
    else None
  }

  function Unit(c: Countdown, rank: nat): nat
    requires rank <= 4
  {
    if rank == 0 then c.months else if rank == 1 then c.days else if rank == 2 then c.hours
    else if rank == 3 then c.minutes else c.seconds
  }

  function WithUnit(c: Countdown, rank: nat, v: nat): Countdown
    requires rank <= 4
  {
    if rank == 0 then c.(months := v) else if rank == 1 then c.(days := v) else if rank == 2 then c.(hours := v)
    else if rank == 3 then c.(minutes := v) else c.(seconds := v)
  }

  /** One piece of countdown text, a decimal count followed by a unit word, as (count, rank). */
  function ParseToken(token: string): Option<(nat, nat)> {
    var k := DigitRun(token);
    if k == 0 then None
    else
      match RankOf(token[k..])
      case None => None
      case Some(rank) => Some((NumeralValue(token[..k], 10), rank))
  }

  /**
   * Reads pieces whose units strictly increase from `minRank`, the last being
   * seconds; a zero count is accepted only for the seconds.
   */
  function ParseTokens(tokens: seq<string>, minRank: nat, acc: Countdown): Option<Countdown>
    decreases |tokens|
  {
    if tokens == [] then None
    else
      match ParseToken(tokens[0])
      case None => None
      case Some((v, rank)) =>
        if rank < minRank || (rank < 4 && v == 0) then None
        else if rank == 4 then (if |tokens| == 1 then Some(WithUnit(acc, 4, v)) else None)
        else ParseTokens(tokens[1..], rank + 1, WithUnit(acc, rank, v))
  }

  /** Reads a countdown text; a unit that is not written is zero. */
  function ParseCountdown(text: string): Option<Countdown> {
    ParseTokens(Split(text, ' '), 0, Countdown(0, 0, 0, 0, 0))
  }

  /** The parts for the units from `rank` down to seconds. */
  function PartsFrom(c: Countdown, rank: nat): seq<string>
    requires rank <= 4
    decreases 4 - rank
  {
    if rank == 4 then [Decimal(c.seconds) + "s"]
    else UnitPart(Unit(c, rank), UnitName(rank)) + PartsFrom(c, rank + 1)
  }

  lemma CountdownPartsFrom(c: Countdown)
    ensures CountdownParts(c) == PartsFrom(c, 0)
  {
    var mo, d, h, m := UnitPart(c.months, "mo"), UnitPart(c.days, "d"), UnitPart(c.hours, "h"), UnitPart(c.minutes, "m");
    var s := [Decimal(c.seconds) + "s"];
    assert PartsFrom(c, 3) == m + s;
    assert PartsFrom(c, 2) == h + (m + s);
    assert PartsFrom(c, 1) == d + (h + (m + s));
    assert PartsFrom(c, 0) == mo + (d + (h + (m + s)));
    assert mo + d + h + m + s == mo + (d + (h + (m + s)));
  }

  lemma {:induction false} PartsHaveNoSpace(c: Countdown, rank: nat)
    requires rank <= 4
    ensures forall i :: 0 <= i < |PartsFrom(c, rank)| ==> ' ' !in PartsFrom(c, rank)[i]
    decreases 4 - rank
  {
    var u := Unit(c, rank);
    assert ' ' !in Decimal(u) + UnitName(rank) by {
      assert DigitValue(' ') == -1;
    }
    if rank < 4 {
      PartsHaveNoSpace(c, rank + 1);
    }
  }

  lemma ParseOneToken(v: nat, rank: nat)
    requires rank <= 4
    ensures ParseToken(Decimal(v) + UnitName(rank)) == Some((v, rank))
  {
    var d := Decimal(v);
    var w := UnitName(rank);
    DigitRunOfNumeral(d, w);
    NatToStringRoundTrip(v, 10);
  }

  /** Units `rank` and below taken from `c`, the larger ones from `acc`. */
  function Merge(acc: Countdown, c: Countdown, rank: nat): Countdown {
    Countdown(if rank <= 0 then c.months else acc.months,
              if rank <= 1 then c.days else acc.days,
              if rank <= 2 then c.hours else acc.hours,
              if rank <= 3 then c.minutes else acc.minutes,
              c.seconds)
  }

  lemma {:induction false} ParsePartsFrom(c: Countdown, rank: nat, minRank: nat, acc: Countdown)
    requires minRank <= rank <= 4
    requires forall u :: rank <= u <= 4 ==> Unit(acc, u) == 0
    ensures ParseTokens(PartsFrom(c, rank), minRank, acc) == Some(Merge(acc, c, rank))
    decreases 4 - rank
  {
    if rank == 4 {
      ParseOneToken(c.seconds, 4);
    } else if Unit(c, rank) > 0 {
      var acc' := WithUnit(acc, rank, Unit(c, rank));
      WithUnitKeepsSmaller(acc, rank, Unit(c, rank));
      ParsePartsFrom(c, rank + 1, rank + 1, acc');
      ParsePresentUnit(c, rank, minRank, acc);
    } else {
      ParsePartsFrom(c, rank + 1, minRank, acc);
      ParseAbsentUnit(c, rank, minRank, acc);
    }
  }

  /** Setting one unit leaves the smaller ones as they were. */
  lemma WithUnitKeepsSmaller(acc: Countdown, rank: nat, v: nat)
    requires rank < 4
    ensures forall u :: rank + 1 <= u <= 4 ==> Unit(WithUnit(acc, rank, v), u) == Unit(acc, u)
  {
    forall u | rank + 1 <= u <= 4
      ensures Unit(WithUnit(acc, rank, v), u) == Unit(acc, u)
    {
      if u == 4 {
        assert WithUnit(acc, rank, v).seconds == acc.seconds;
      }
    }
  }

  /** A non-zero unit is written as its own part, read first, and the rest follows. */
  lemma ParsePresentUnit(c: Countdown, rank: nat, minRank: nat, acc: Countdown)
    requires minRank <= rank < 4 && Unit(c, rank) > 0
    requires ParseTokens(PartsFrom(c, rank + 1), rank + 1, WithUnit(acc, rank, Unit(c, rank)))
             == Some(Merge(WithUnit(acc, rank, Unit(c, rank)), c, rank + 1))
    ensures ParseTokens(PartsFrom(c, rank), minRank, acc) == Some(Merge(acc, c, rank))
  {
    var v := Unit(c, rank);
    ParseOneToken(v, rank);
    var tokens := PartsFrom(c, rank);
    assert tokens[0] == Decimal(v) + UnitName(rank);
    assert tokens[1..] == PartsFrom(c, rank + 1);
    ParseTokensStep(tokens, minRank, acc, v, rank);
    assert Merge(WithUnit(acc, rank, v), c, rank + 1) == Merge(acc, c, rank);
  }

  /** A zero unit above seconds is not written, so the parts are those of the next unit. */
  lemma ParseAbsentUnit(c: Countdown, rank: nat, minRank: nat, acc: Countdown)
    requires minRank <= rank < 4 && Unit(c, rank) == 0 && Unit(acc, rank) == 0
    requires ParseTokens(PartsFrom(c, rank + 1), minRank, acc) == Some(Merge(acc, c, rank + 1))
    ensures ParseTokens(PartsFrom(c, rank), minRank, acc) == Some(Merge(acc, c, rank))
  {
    assert PartsFrom(c, rank) == PartsFrom(c, rank + 1);
    assert Merge(acc, c, rank + 1) == Merge(acc, c, rank);
  }

  /** A non-zero count for a unit above seconds, in order, is read and the rest follows. */
  lemma ParseTokensStep(tokens: seq<string>, minRank: nat, acc: Countdown, v: nat, rank: nat)
    requires |tokens| >= 1 && ParseToken(tokens[0]) == Some((v, rank))
    requires minRank <= rank < 4 && v > 0
    ensures ParseTokens(tokens, minRank, acc) == ParseTokens(tokens[1..], rank + 1, WithUnit(acc, rank, v))
  {
  }

  /** Reading a rendered countdown gives it back: no two countdowns share a text. */
  lemma RenderRoundTrip(c: Countdown)
    ensures ParseCountdown(Render(c)) == Some(c)
  {
    CountdownPartsFrom(c);
    PartsHaveNoSpace(c, 0);
    SplitJoin(CountdownParts(c), ' ');
    ParsePartsFrom(c, 0, 0, Countdown(0, 0, 0, 0, 0));
  }

  /** A zero count written for a unit above seconds is not countdown text. */
  lemma ZeroUnitIsNotCountdownText()
    ensures ParseTokens(["0mo", "5s"], 0, Countdown(0, 0, 0, 0, 0)) == None
    ensures ParseTokens(["5s"], 0, Countdown(0, 0, 0, 0, 0)) == Some(Countdown(0, 0, 0, 0, 5))
  {
    assert DigitRun("0mo") == 1 && "0mo"[1..] == "mo" && "0mo"[..1] == "0";
    assert DigitRun("5s") == 1 && "5s"[1..] == "s" && "5s"[..1] == "5";
  }

  /** Different numbers of whole seconds left are never shown with the same text. */
  lemma DistinctSecondsDistinctText(s1: nat, s2: nat)
    requires s1 != s2
    ensures Render(Decompose(s1)) != Render(Decompose(s2))
  {
    RenderRoundTrip(Decompose(s1));
    RenderRoundTrip(Decompose(s2));
  }

  /**
   * `formatTimeRemaining`: "Expired" exactly when no time is left; otherwise
   * the rendering of the whole seconds left, with the milliseconds floored away.
   */
  method FormatTimeRemaining(milliseconds: int) returns (text: string)
    ensures milliseconds <= 0 ==> text == "Expired"
    ensures milliseconds > 0 ==> text == Render(Decompose(milliseconds / 1000))
    ensures text == "Expired" <==> milliseconds <= 0
  {
    if milliseconds <= 0 {
      return "Expired";
    }
    var totalSeconds := milliseconds / 1000;
    SameUnits(totalSeconds);
    ghost var c := Decompose(totalSeconds);
    var months := totalSeconds / (30 * 24 * 60 * 60);
    var days := (totalSeconds % (30 * 24 * 60 * 60)) / (24 * 60 * 60);
    var hours := (totalSeconds % (24 * 60 * 60)) / 3600;
    var minutes := (totalSeconds % 3600) / 60;
    var seconds := totalSeconds % 60;

    assert c == Countdown(months, days, hours, minutes, seconds);

    var parts: seq<string> := [];
    if months > 0 { parts := parts + [Decimal(months) + "mo"]; }
    assert parts == UnitPart(c.months, "mo");
    if days > 0 { parts := parts + [Decimal(days) + "d"]; }
    assert parts == UnitPart(c.months, "mo") + UnitPart(c.days, "d");
    if hours > 0 { parts := parts + [Decimal(hours) + "h"]; }
    assert parts == UnitPart(c.months, "mo") + UnitPart(c.days, "d") + UnitPart(c.hours, "h");
    if minutes > 0 { parts := parts + [Decimal(minutes) + "m"]; }
    assert parts + [Decimal(c.seconds) + "s"] == CountdownParts(c);
    if seconds >= 0 { parts := parts + [Decimal(seconds) + "s"]; }
    text := Join(parts, " ");
    assert text == Render(c);
  }

  /**
   * The unit values the page computes, each straight from the total, agree
   * with the largest-first split.
   */
  lemma SameUnits(t: nat)
    ensures Decompose(t) == Countdown(t / 2592000, (t % 2592000) / 86400, (t % 86400) / 3600, (t % 3600) / 60, t % 60)
  {
    DayRemainder(t);
    HourRemainder(t % 2592000);
    HourRemainder(t);
    MinuteRemainder(t % 2592000 % 86400);
    MinuteRemainder(t % 86400);
    MinuteRemainder(t);
  }

  /** A day divides a 30-day month, so the time into the day is the same either way. */
  lemma DayRemainder(t: nat)
    ensures (t % 2592000) % 86400 == t % 86400
  {
    var q, r := t / 2592000, t % 2592000;
    assert t == (30 * q + r / 86400) * 86400 + r % 86400;
  }

  lemma HourRemainder(t: nat)
    ensures (t % 86400) % 3600 == t % 3600
  {
    var q, r := t / 86400, t % 86400;
    assert t == (24 * q + r / 3600) * 3600 + r % 3600;
  }

  lemma MinuteRemainder(t: nat)
    ensures (t % 3600) % 60 == t % 60
  {
    var q, r := t / 3600, t % 3600;
    assert t == (60 * q + r / 60) * 60 + r % 60;
  }

  /** Less than one second left, but some: the text is "0s", not "Expired". */
  lemma SubSecondRemaining(milliseconds: int)
    requires 0 < milliseconds < 1000
    ensures Render(Decompose(milliseconds / 1000)) == "0s"
  {
    var t := milliseconds / 1000;
    UnderAMinuteText(t);
    ZeroSecondsPart(t);
  }

  /** Under a minute left, the text is the seconds alone. */
  lemma UnderAMinuteText(t: nat)
    requires t < 60
    ensures Render(Decompose(t)) == Decimal(t) + "s"
  {
    DecomposeUnderAMinute(t);
    SecondsOnlyText(Countdown(0, 0, 0, 0, t));
  }

  lemma ZeroSecondsPart(t: nat)
    requires t == 0
    ensures Decimal(t) + "s" == "0s"
  {
    assert DigitChar(0) == '0';
  }

  /** Under a minute, the countdown is the seconds alone. */
  lemma DecomposeUnderAMinute(t: nat)
    requires t < 60
    ensures Decompose(t) == Countdown(0, 0, 0, 0, t)
  {
    DecomposeTotalSeconds(Countdown(0, 0, 0, 0, t));
  }

  /** With only seconds left, the text is the seconds alone. */
  lemma SecondsOnlyText(c: Countdown)
    requires c.months == 0 && c.days == 0 && c.hours == 0 && c.minutes == 0
    ensures Render(c) == Decimal(c.seconds) + "s"
  {
    assert CountdownParts(c) == [Decimal(c.seconds) + "s"];
  }

  /** 90061000 ms is one day, one hour, one minute and one second ... */
  lemma DecomposeExample()
    ensures Decompose(90061000 / 1000) == Countdown(0, 1, 1, 1, 1)
  {
    assert 90061000 / 1000 == 90061 == TotalSeconds(Countdown(0, 1, 1, 1, 1));
    DecomposeTotalSeconds(Countdown(0, 1, 1, 1, 1));
  }

  /** ... and is shown as "1d 1h 1m 1s", the zero months left out. */
  lemma RenderExample()
    ensures Render(Countdown(0, 1, 1, 1, 1)) == "1d 1h 1m 1s"
  {
    PartsExample();
    JoinExample();
  }

  lemma PartsExample()
    ensures CountdownParts(Countdown(0, 1, 1, 1, 1)) == ["1d", "1h", "1m", "1s"]
  {
    assert DigitChar(1) == '1';
    assert Decimal(1) == "1";
    assert Decimal(1) + "d" == "1d" && Decimal(1) + "h" == "1h";
    assert Decimal(1) + "m" == "1m" && Decimal(1) + "s" == "1s";
    assert [] + ["1d"] + ["1h"] + ["1m"] + ["1s"] == ["1d", "1h", "1m", "1s"];
  }

  lemma JoinExample()
    ensures Join(["1d", "1h", "1m", "1s"], " ") == "1d 1h 1m 1s"
  {
    var p4 := ["1d", "1h", "1m", "1s"];
    var p3 := ["1d", "1h", "1m"];
    var p2 := ["1d", "1h"];
    assert p4[..3] == p3 && p3[..2] == p2 && p2[..1] == ["1d"];
    assert Join(p2, " ") == "1d 1h";
    assert Join(p3, " ") == "1d 1h 1m";
  }

  // ---------------------------------------------------------------------------
  // Polls as the public endpoint returns them
  // ---------------------------------------------------------------------------

  datatype VoteOption = VoteOption(name: string, id: string, votesCount: int)

  datatype VoteData = VoteData(
    voteName: string,
    userName: string,
    createdAt: string,
    lastValidDate: string,
    options: seq<VoteOption>)

  /** Every option of every poll, in the order the nested `forEach` visits them. */
  function AllOptions(polls: seq<VoteData>): seq<VoteOption> {
    if polls == [] then [] else AllOptions(polls[..|polls| - 1]) + polls[|polls| - 1].options
  }

  /** The option ids that occur in any of the polls. */
  function OptionIds(polls: seq<VoteData>): set<string> {
    set i, o | 0 <= i < |polls| && o in polls[i].options :: o.id
  }

  /** The ids that occur in a flat list of options. */
  function IdsOf(flat: seq<VoteOption>): set<string> {
    set o | o in flat :: o.id
  }

  /** The flattening holds exactly the options of the polls. */
  lemma {:induction false} AllOptionsMembers(polls: seq<VoteData>)
    ensures forall o :: o in AllOptions(polls) <==> exists i :: 0 <= i < |polls| && o in polls[i].options
    ensures IdsOf(AllOptions(polls)) == OptionIds(polls)
  {
    if polls != [] {
      var init := polls[..|polls| - 1];
      AllOptionsMembers(init);
      forall o | o in AllOptions(polls)
        ensures exists i :: 0 <= i < |polls| && o in polls[i].options
      {
        if o !in polls[|polls| - 1].options {
          var i :| 0 <= i < |init| && o in init[i].options;
          assert polls[i] == init[i];
        }
      }
      forall o, i | 0 <= i < |polls| && o in polls[i].options
        ensures o in AllOptions(polls)
      {
        if i < |polls| - 1 {
          assert init[i] == polls[i];
        }
      }
    }
    assert IdsOf(AllOptions(polls)) == OptionIds(polls);
  }

  /** Visiting the first `i` polls visits a prefix of all the options. */
  lemma {:induction false} AllOptionsPrefix(polls: seq<VoteData>, i: nat)
    requires i <= |polls|
    ensures |AllOptions(polls[..i])| <= |AllOptions(polls)|
    ensures AllOptions(polls)[..|AllOptions(polls[..i])|] == AllOptions(polls[..i])
    decreases |polls| - i
  {
    if i < |polls| {
      AllOptionsPrefix(polls, i + 1);
      assert polls[..i + 1][..i] == polls[..i];
    } else {
      assert polls[..i] == polls;
    }
  }

  // ---------------------------------------------------------------------------
  // Colour map
  // ---------------------------------------------------------------------------

  /** Every draw of the random source lies in [0, 16777214]. */
  predicate ValidDraws(draws: seq<nat>) {
    forall k :: 0 <= k < |draws| ==> draws[k] < DrawBound
  }

  /** `k` is the last position in `flat` that holds an option with this id. */
  predicate IsLastIndexOf(flat: seq<VoteOption>, id: string, k: int) {
    0 <= k < |flat| && flat[k].id == id && forall j :: k < j < |flat| ==> flat[j].id != id
  }

  /**
   * `colors` is what writing `colors[o.id] = palette[k]` for the k-th option of
   * `flat`, in order, leaves behind: its keys are the ids, and each id holds
   * the colour of its last write.
   */
  ghost predicate ColorsAssigned(flat: seq<VoteOption>, palette: seq<string>, colors: map<string, string>)
    requires |flat| <= |palette|
  {
    colors.Keys == IdsOf(flat) &&
    forall id :: id in colors ==> exists k :: IsLastIndexOf(flat, id, k) && colors[id] == palette[k]
  }

  lemma IdsOfSnoc(flat: seq<VoteOption>, o: VoteOption)
    ensures IdsOf(flat + [o]) == IdsOf(flat) + {o.id}
  {
    assert forall p :: p in flat + [o] <==> p in flat || p == o;
  }

  /** One more write keeps the map in step with the options visited. */
  lemma ColorsAssignedStep(flat: seq<VoteOption>, palette: seq<string>, colors: map<string, string>, o: VoteOption)
    requires |flat| < |palette|
    requires ColorsAssigned(flat, palette, colors)
    ensures ColorsAssigned(flat + [o], palette, colors[o.id := palette[|flat|]])
  {
    var flat' := flat + [o];
    var colors' := colors[o.id := palette[|flat|]];
    IdsOfSnoc(flat, o);
    forall id | id in colors'
      ensures exists k :: IsLastIndexOf(flat', id, k) && colors'[id] == palette[k]
    {
      if id == o.id {
        assert IsLastIndexOf(flat', id, |flat|);
      } else {
        var k :| IsLastIndexOf(flat, id, k) && colors[id] == palette[k];
        assert IsLastIndexOf(flat', id, k);
      }
    }
  }

  /**
   * The map that writing `colors[o.id] = palette[k]` for the k-th option of
   * `flat`, in order, starting from an empty map, leaves behind.
   */
  ghost function ColorWrites(flat: seq<VoteOption>, palette: seq<string>): map<string, string>
    requires |flat| <= |palette|
  {
    if flat == [] then map[]
    else ColorWrites(flat[..|flat| - 1], palette)[flat[|flat| - 1].id := palette[|flat| - 1]]
  }

  lemma ColorWritesSnoc(flat: seq<VoteOption>, o: VoteOption, palette: seq<string>)
    requires |flat| < |palette|
    ensures ColorWrites(flat + [o], palette) == ColorWrites(flat, palette)[o.id := palette[|flat|]]
  {
    assert (flat + [o])[..|flat|] == flat;
  }

  /** The writes leave each id of `flat` holding the colour of its last write, and no other key. */
  lemma {:induction false} ColorWritesAssigned(flat: seq<VoteOption>, palette: seq<string>)
    requires |flat| <= |palette|
    ensures ColorsAssigned(flat, palette, ColorWrites(flat, palette))
  {
    if flat == [] {
      assert IdsOf(flat) == {};
    } else {
      var init, o := flat[..|flat| - 1], flat[|flat| - 1];
      ColorWritesAssigned(init, palette);
      ColorsAssignedStep(init, palette, ColorWrites(init, palette), o);
      assert init + [o] == flat;
    }
  }

  /** `getRandomColor()` for each draw in turn: one colour per draw, the hex encoding of that draw. */
  function Palette(draws: seq<nat>): (palette: seq<string>)
    requires ValidDraws(draws)
    ensures |palette| == |draws| && forall k :: 0 <= k < |draws| ==> palette[k] == HexColor(draws[k])
  {
    seq(|draws|, k requires 0 <= k < |draws| => HexColor(draws[k]))
  }

  /**
   * The colour map built in `fetchVote`: one fresh colour per option visited,
   * keyed by option id, so its keys are exactly the ids of the fetched polls
   * and, where an id repeats, the last colour written for it is kept.
   */
  method BuildColorMap(polls: seq<VoteData>, draws: seq<nat>) returns (colors: map<string, string>)
    requires |draws| == |AllOptions(polls)| && ValidDraws(draws)
    ensures colors == ColorWrites(AllOptions(polls), Palette(draws))
    ensures colors.Keys == OptionIds(polls)
    ensures forall id :: id in colors ==>
              exists k :: IsLastIndexOf(AllOptions(polls), id, k) && colors[id] == HexColor(draws[k])
  {
    var palette := Palette(draws);
    colors := map[];
    var next := 0;
    ghost var seen: seq<VoteOption> := [];
    for i := 0 to |polls|
      invariant seen == AllOptions(polls[..i]) && next == |seen| <= |palette|
      invariant colors == ColorWrites(seen, palette)
    {
      AllOptionsStep(polls, i);
      colors := WriteOptionColors(polls[i].options, palette, next, seen, colors);
      seen := seen + polls[i].options;
      next := next + |polls[i].options|;
    }
    assert polls[..|polls|] == polls;
    ColorWritesAssigned(seen, palette);
    ColorsAssignedAll(polls, draws, colors);
  }

  /**
   * The inner `forEach` over one poll's options: each option gets the next
   * colour, written over whatever its id held before.
   */
  method WriteOptionColors(options: seq<VoteOption>, palette: seq<string>, next: nat,
                           ghost before: seq<VoteOption>, colors0: map<string, string>)
    returns (colors: map<string, string>)
    requires next == |before| && next + |options| <= |palette|
    requires colors0 == ColorWrites(before, palette)
    ensures colors == ColorWrites(before + options, palette)
  {
    colors := colors0;
    assert before + options[..0] == before;
    for j := 0 to |options|
      invariant colors == ColorWrites(before + options[..j], palette)
    {
      ColorWritesSnoc(before + options[..j], options[j], palette);
      colors := colors[options[j].id := palette[next + j]];
      PrefixSnoc(before, options, j);
    }
    assert options[..|options|] == options;
  }

  /** Once every option is visited, the map says what BuildColorMap promises. */
  lemma ColorsAssignedAll(polls: seq<VoteData>, draws: seq<nat>, colors: map<string, string>)
    requires |draws| == |AllOptions(polls)| && ValidDraws(draws)
    requires ColorsAssigned(AllOptions(polls), Palette(draws), colors)
    ensures colors.Keys == OptionIds(polls)
    ensures forall id :: id in colors ==>
              exists k :: IsLastIndexOf(AllOptions(polls), id, k) && colors[id] == HexColor(draws[k])
  {
    AllOptionsMembers(polls);
    var palette := Palette(draws);
    forall id | id in colors
      ensures exists k :: IsLastIndexOf(AllOptions(polls), id, k) && colors[id] == HexColor(draws[k])
    {
      var k :| IsLastIndexOf(AllOptions(polls), id, k) && colors[id] == palette[k];
      assert palette[k] == HexColor(draws[k]);
    }
  }

  /** The outer loop's step: one more poll appends its options to those visited. */
  lemma AllOptionsStep(polls: seq<VoteData>, i: nat)
    requires i < |polls|
    ensures AllOptions(polls[..i + 1]) == AllOptions(polls[..i]) + polls[i].options
    ensures |AllOptions(polls[..i + 1])| <= |AllOptions(polls)|
  {
    assert polls[..i + 1][..i] == polls[..i];
    AllOptionsPrefix(polls, i + 1);
  }

  // ---------------------------------------------------------------------------
  // Page state, fetching, voting
  // ---------------------------------------------------------------------------

  /** The state hooks of the page that the handlers below change. */
  datatype PageState = PageState(
    voteData: Option<seq<VoteData>>,
    error: Option<string>,
    loading: bool,
    showDetails: bool,
    colorMap: map<string, string>)

  /** What `getPublicVote` resolves to: `{ data }` or `{ error }`. */
  datatype FetchResult = FetchResult(data: Option<seq<VoteData>>, error: Option<string>)

  /**
   * The effect of `fetchVote` once the request has resolved (or of the early
   * return when the route carries no vote id): an error replaces the data,
   * data clears the error and gets a freshly built colour map.
   */
  method LoadVote(page: PageState, voteId: Option<string>, result: FetchResult, draws: seq<nat>)
    returns (next: PageState)
    requires result.data.Some? ==> |draws| == |AllOptions(result.data.value)| && ValidDraws(draws)
    ensures !next.loading && next.showDetails == page.showDetails
    ensures !Truthy(voteId) ==> next == page.(error := Some("No vote ID provided."), loading := false)
    ensures Truthy(voteId) && Truthy(result.error) ==>
              next == page.(error := result.error, voteData := None, loading := false)
    ensures Truthy(voteId) && !Truthy(result.error) && result.data.None? ==> next == page.(loading := false)
    ensures Truthy(voteId) && !Truthy(result.error) && result.data.Some? ==>
              && next.voteData == result.data && next.error == None
              && next.colorMap.Keys == OptionIds(result.data.value)
              && forall id :: id in next.colorMap ==>
                   exists k :: IsLastIndexOf(AllOptions(result.data.value), id, k) && next.colorMap[id] == HexColor(draws[k])
  {
    if !Truthy(voteId) {
      return page.(error := Some("No vote ID provided."), loading := false);
    }
    next := page.(loading := true);
    if Truthy(result.error) {
      next := next.(error := result.error, voteData := None);
    } else if result.data.Some? {
      var colors := BuildColorMap(result.data.value, draws);
      next := next.(voteData := result.data, error := None, colorMap := colors);
    }
    next := next.(loading := false);
  }

  /** Adds one vote to every option carrying `optionId`; every other option is left as it was. */
  function BumpOptions(options: seq<VoteOption>, optionId: string): (r: seq<VoteOption>)
    ensures |r| == |options|
    ensures forall i :: 0 <= i < |r| ==> r[i].id == options[i].id && r[i].name == options[i].name
    ensures forall i :: 0 <= i < |r| ==>
              r[i].votesCount == options[i].votesCount + (if options[i].id == optionId then 1 else 0)
  {
    Map(options, (o: VoteOption) => if o.id == optionId then o.(votesCount := o.votesCount + 1) else o)
  }

  /**
   * The optimistic update after a successful vote: the same polls in the same
   * order, each with the same fields, its options bumped for `optionId`.
   */
  function ApplyVote(polls: seq<VoteData>, optionId: string): (r: seq<VoteData>)
    ensures |r| == |polls|
    ensures forall i :: 0 <= i < |r| ==> r[i] == polls[i].(options := BumpOptions(polls[i].options, optionId))
  {
    Map(polls, (v: VoteData) => v.(options := BumpOptions(v.options, optionId)))
  }

  function OptionVotes(options: seq<VoteOption>): int {
    if options == [] then 0 else OptionVotes(options[..|options| - 1]) + options[|options| - 1].votesCount
  }

  function MatchCount(options: seq<VoteOption>, optionId: string): nat {
    if options == [] then 0
    else MatchCount(options[..|options| - 1], optionId) + (if options[|options| - 1].id == optionId then 1 else 0)
  }

  function PollVotes(polls: seq<VoteData>): int {
    if polls == [] then 0 else PollVotes(polls[..|polls| - 1]) + OptionVotes(polls[|polls| - 1].options)
  }

  function PollMatches(polls: seq<VoteData>, optionId: string): nat {
    if polls == [] then 0 else PollMatches(polls[..|polls| - 1], optionId) + MatchCount(polls[|polls| - 1].options, optionId)
  }

  /** Bumping adds exactly one vote per option that carries the id. */
  lemma {:induction false} BumpOptionsVotes(options: seq<VoteOption>, optionId: string)
    ensures OptionVotes(BumpOptions(options, optionId)) == OptionVotes(options) + MatchCount(options, optionId)
  {
    if options != [] {
      var r := BumpOptions(options, optionId);
      BumpOptionsVotes(options[..|options| - 1], optionId);
      assert r[..|r| - 1] == BumpOptions(options[..|options| - 1], optionId);
    }
  }

  /**
   * Across all polls the displayed total grows by the number of options that
   * carry the voted id: by exactly one when ids are unique and the id is present.
   */
  lemma {:induction false} ApplyVoteVotes(polls: seq<VoteData>, optionId: string)
    ensures PollVotes(ApplyVote(polls, optionId)) == PollVotes(polls) + PollMatches(polls, optionId)
  {
    if polls != [] {
      var r := ApplyVote(polls, optionId);
      ApplyVoteVotes(polls[..|polls| - 1], optionId);
      BumpOptionsVotes(polls[|polls| - 1].options, optionId);
      assert r[..|r| - 1] == ApplyVote(polls[..|polls| - 1], optionId);
    }
  }

  lemma {:induction false} NoMatchNoBump(options: seq<VoteOption>, optionId: string)
    requires MatchCount(options, optionId) == 0
    ensures BumpOptions(options, optionId) == options
  {
    if options != [] {
      NoMatchNoBump(options[..|options| - 1], optionId);
    }
  }

  /** Voting for an id that no option carries changes nothing. */
  lemma {:induction false} ApplyVoteAbsent(polls: seq<VoteData>, optionId: string)
    requires PollMatches(polls, optionId) == 0
    ensures ApplyVote(polls, optionId) == polls
  {
    if polls != [] {
      ApplyVoteAbsent(polls[..|polls| - 1], optionId);
      NoMatchNoBump(polls[|polls| - 1].options, optionId);
    }
  }

  /** The name sent with a vote: the trimmed answer to the prompt, or "Anonymous" when there is none. */
  function VoterName(answer: Option<string>): (name: string)
    ensures name != "" && IsTrimmed(name)
    ensures answer.Some? && !IsBlank(answer.value) ==> name == Trim(answer.value)
    ensures answer.None? || IsBlank(answer.value) ==> name == "Anonymous"
  {
    if answer.Some? && Trim(answer.value) != "" then Trim(answer.value) else "Anonymous"
  }

  /** What the voting service reported. */
  datatype VoteOutcome = Succeeded | Failed(message: string)

  /** The body of the vote request, with the vote it goes to. */
  datatype VoteRequest = VoteRequest(voteId: string, optionId: string, userName: string)

  /** The request a click sends, if any, the alert shown, if any, and the page state after the reply. */
  datatype ClickEffect = ClickEffect(request: Option<VoteRequest>, alert: Option<string>, next: PageState)

  /**
   * `handleVoteClick`: without data or a vote id nothing is sent; otherwise the
   * vote is sent under the prompted name, and only a success changes the page:
   * the optimistic increment, the results shown, the error cleared. A failure
   * is only reported in an alert, so the data stays as it was.
   */
  function HandleVoteClick(page: PageState, voteId: Option<string>, optionId: string,
                           answer: Option<string>, outcome: VoteOutcome): (effect: ClickEffect)
    ensures effect.request.None? <==> page.voteData.None? || !Truthy(voteId)
    ensures effect.request.Some? ==> effect.request.value == VoteRequest(voteId.value, optionId, VoterName(answer))
    ensures effect.request.None? || outcome.Failed? ==> effect.next == page
    ensures effect.alert.Some? <==> effect.request.Some? && outcome.Failed?
    ensures effect.alert.Some? ==> effect.alert.value == "Failed to submit vote: " + outcome.message
    ensures effect.request.Some? && outcome.Succeeded? ==>
              effect.next == page.(voteData := Some(ApplyVote(page.voteData.value, optionId)),
                                   showDetails := true, error := None)
  {
    if page.voteData.None? || !Truthy(voteId) then ClickEffect(None, None, page)
    else
      var request := VoteRequest(voteId.value, optionId, VoterName(answer));
      match outcome
      case Succeeded =>
        ClickEffect(Some(request), None, page.(voteData := Some(ApplyVote(page.voteData.value, optionId)),
                                         showDetails := true, error := None))
      case Failed(message) => ClickEffect(Some(request), Some("Failed to submit vote: " + message), page)
  }
}
