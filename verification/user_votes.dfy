/**
 * The results panel of the dashboard: the selected poll, its vote total, the
 * pie data projected from its options, the rule that a poll won with every
 * vote is drawn as one slice with the other options listed as "0 votes",
 * and the tooltip that looks an option up by name.
 */
module UserVotes {
  import opened Wrappers
  import opened Text
  import opened Collections
  import opened Color

  datatype Voter = Voter(voterName: string)

  /** An option as the dashboard endpoint returns it: its votes are the voters who chose it. */
  datatype VoteOption = VoteOption(id: string, name: string, users: seq<Voter>)

  datatype Vote = Vote(id: string, name: string, options: seq<VoteOption>, lastValidDate: string, createdAt: string)

  /** One pie chart record: the option's name and its number of votes. */
  datatype Slice = Slice(name: string, value: nat)

  /** `votes.find(v => v.id === selectedVoteId)`: the first poll with the selected id, if any. */
  function SelectedVote(votes: seq<Vote>, selectedId: Option<string>): (r: Option<Vote>)
    ensures r.None? <==> selectedId.None? || forall i :: 0 <= i < |votes| ==> votes[i].id != selectedId.value
    ensures r.Some? ==> r.value in votes && r.value.id == selectedId.value
    ensures r.Some? ==> exists i :: 0 <= i < |votes| && votes[i] == r.value &&
                                    forall j :: 0 <= j < i ==> votes[j].id != selectedId.value
  {
    if selectedId.None? then None
    else
      var k := FindIndex(votes, (v: Vote) => v.id == selectedId.value);
      if k < 0 then None else Some(votes[k])
  }

  /** The number of voters across a list of options, summed left to right as `reduce` does. */
  function UsersTotal(options: seq<VoteOption>): (total: nat)
    ensures forall i :: 0 <= i < |options| ==> |options[i].users| <= total
    ensures total == 0 <==> forall i :: 0 <= i < |options| ==> options[i].users == []
  {
    if options == [] then 0 else UsersTotal(options[..|options| - 1]) + |options[|options| - 1].users|
  }

  /** `totalVotes`: the voters of the selected poll, 0 when no poll is selected. */
  function TotalVotes(selected: Option<Vote>): (total: nat)
    ensures selected.None? ==> total == 0
    ensures selected.Some? ==> forall i :: 0 <= i < |selected.value.options| ==> |selected.value.options[i].users| <= total
    ensures selected.Some? ==> (total == 0 <==> forall i :: 0 <= i < |selected.value.options| ==> selected.value.options[i].users == [])
  {
    match selected
    case None => 0
    case Some(v) => UsersTotal(v.options)
  }

  /** The slice for one option. */
  function SliceOf(o: VoteOption): Slice {
    Slice(o.name, |o.users|)
  }

  /** `pieData`: one slice per option of the selected poll, same order; no slices without a poll. */
  function PieData(selected: Option<Vote>): (pie: seq<Slice>)
    ensures selected.None? ==> pie == []
    ensures selected.Some? ==> |pie| == |selected.value.options|
    ensures selected.Some? ==>
              forall i :: 0 <= i < |pie| ==>
                pie[i].name == selected.value.options[i].name && pie[i].value == |selected.value.options[i].users|
  {
    match selected
    case None => []
    case Some(v) => Map(v.options, SliceOf)
  }

  function SliceSum(slices: seq<Slice>): nat {
    if slices == [] then 0 else SliceSum(slices[..|slices| - 1]) + slices[|slices| - 1].value
  }

  lemma {:induction false} SlicesOfOptionsSum(options: seq<VoteOption>)
    ensures SliceSum(Map(options, SliceOf)) == UsersTotal(options)
  {
    if options != [] {
      var pie := Map(options, SliceOf);
      SlicesOfOptionsSum(options[..|options| - 1]);
      assert pie[..|pie| - 1] == Map(options[..|options| - 1], SliceOf);
    }
  }

  /** The total the page computes is the sum of the values the chart is drawn from. */
  lemma TotalIsPieSum(selected: Option<Vote>)
    ensures TotalVotes(selected) == SliceSum(PieData(selected))
  {
    if selected.Some? {
      SlicesOfOptionsSum(selected.value.options);
    }
  }

  /**
   * `winnerIndex`: the first slice holding all `total` votes, provided there
   * are votes at all; -1 when there is no such slice.
   */
  function WinnerIndex(pie: seq<Slice>, total: nat): (w: int)
    ensures -1 <= w < |pie|
    ensures w >= 0 ==> total > 0 && pie[w].value == total && forall j :: 0 <= j < w ==> pie[j].value != total
    ensures w < 0 <==> total == 0 || forall j :: 0 <= j < |pie| ==> pie[j].value != total
  {
    FindIndex(pie, (s: Slice) => s.value == total && total > 0)
  }

  /** `isHundredPercentWinner`. */
  predicate IsHundredPercentWinner(w: int) {
    w != -1
  }

  /**
   * A poll has a 100% winner exactly when some option's voters are all the
   * voters of the poll, and there is at least one.
   */
  lemma HundredPercentWinnerIff(v: Vote)
    ensures IsHundredPercentWinner(WinnerIndex(PieData(Some(v)), TotalVotes(Some(v)))) <==>
              exists i :: 0 <= i < |v.options| && |v.options[i].users| == TotalVotes(Some(v)) > 0
  {
    var pie := PieData(Some(v));
    var total := TotalVotes(Some(v));
    var w := WinnerIndex(pie, total);
    if w >= 0 {
      assert |v.options[w].users| == pie[w].value == total > 0;
    }
    if exists i :: 0 <= i < |v.options| && |v.options[i].users| == total > 0 {
      var i :| 0 <= i < |v.options| && |v.options[i].users| == total > 0;
      assert pie[i].value == total;
    }
  }

  /** Two distinct slices together hold no more than the whole chart. */
  lemma {:induction false} PairAtMostSum(slices: seq<Slice>, a: nat, b: nat)
    requires a < |slices| && b < |slices| && a != b
    ensures slices[a].value + slices[b].value <= SliceSum(slices)
  {
    var n := |slices| - 1;
    var init := slices[..n];
    if a < n && b < n {
      PairAtMostSum(init, a, b);
    } else {
      var other := if a == n then b else a;
      OneAtMostSum(init, other);
    }
  }

  lemma {:induction false} OneAtMostSum(slices: seq<Slice>, a: nat)
    requires a < |slices|
    ensures slices[a].value <= SliceSum(slices)
  {
    if a < |slices| - 1 {
      OneAtMostSum(slices[..|slices| - 1], a);
    }
  }

  /**
   * When one slice holds every vote of the chart, every other slice holds
   * none: the winner is unique and the "0 votes" entries are truthful.
   */
  lemma WinnerTakesAll(pie: seq<Slice>)
    ensures var w := WinnerIndex(pie, SliceSum(pie));
            w >= 0 ==> forall j :: 0 <= j < |pie| && j != w ==> pie[j].value == 0
  {
    var w := WinnerIndex(pie, SliceSum(pie));
    if w >= 0 {
      forall j | 0 <= j < |pie| && j != w
        ensures pie[j].value == 0
      {
        PairAtMostSum(pie, w, j);
      }
    }
  }

  /** The slices the pie is drawn with: the winner's alone, or all of them. */
  function DisplayedSlices(pie: seq<Slice>, w: int): (shown: seq<Slice>)
    requires -1 <= w < |pie|
    ensures IsHundredPercentWinner(w) ==> shown == [pie[w]]
    ensures !IsHundredPercentWinner(w) ==> shown == pie
  {
    if IsHundredPercentWinner(w) then [pie[w]] else pie
  }

  /** Drawing only the winner's slice still shows every vote. */
  lemma DisplayedSlicesKeepTotal(pie: seq<Slice>)
    ensures SliceSum(DisplayedSlices(pie, WinnerIndex(pie, SliceSum(pie)))) == SliceSum(pie)
  {
    var w := WinnerIndex(pie, SliceSum(pie));
    if w >= 0 {
      assert [pie[w]][..0] == [];
    }
  }

  /** The list under a winner's chart: every option but the winner, in order. */
  function OtherOptions(options: seq<VoteOption>, w: int): (others: seq<VoteOption>)
    ensures 0 <= w < |options| ==> |others| == |options| - 1 && others == options[..w] + options[w + 1..]
  {
    RemoveIndex(options, w)
  }

  /** Beside a 100% winner every other option is listed, and none of them has a voter. */
  lemma OthersHaveNoVoters(v: Vote)
    ensures var w := WinnerIndex(PieData(Some(v)), TotalVotes(Some(v)));
            IsHundredPercentWinner(w) ==>
              forall o :: o in OtherOptions(v.options, w) ==> o in v.options && o.users == []
  {
    var pie := PieData(Some(v));
    var w := WinnerIndex(pie, TotalVotes(Some(v)));
    if IsHundredPercentWinner(w) {
      TotalIsPieSum(Some(v));
      WinnerTakesAll(pie);
      var others := OtherOptions(v.options, w);
      forall k | 0 <= k < |others|
        ensures others[k] in v.options && others[k].users == []
      {
        var j := if k < w then k else k + 1;
        assert others[k] == v.options[j];
        assert pie[j].value == 0;
      }
    }
  }

  /** What the right-hand panel shows. */
  datatype ResultsView =
    | NothingSelected
    | NoVotesYet
    | Chart(slices: seq<Slice>, zeroVoteOptions: seq<VoteOption>)

  /**
   * The right-hand panel: no poll selected, a poll without votes, or a chart.
   * A chart always accounts for every vote and every option: each option is
   * either a slice or listed as having no votes, and a listed option indeed
   * has no voters; with a 100% winner the chart is that one slice.
   */
  function Results(votes: seq<Vote>, selectedId: Option<string>): (view: ResultsView)
    ensures view.NothingSelected? <==> SelectedVote(votes, selectedId).None?
    ensures view.NoVotesYet? <==> SelectedVote(votes, selectedId).Some? && TotalVotes(SelectedVote(votes, selectedId)) == 0
    ensures view.Chart? ==>
              var selected := SelectedVote(votes, selectedId);
              && selected.Some?
              && SliceSum(view.slices) == TotalVotes(selected) > 0
              && |view.slices| + |view.zeroVoteOptions| == |selected.value.options|
              && (forall o :: o in view.zeroVoteOptions ==> o in selected.value.options && o.users == [])
              && (view.zeroVoteOptions != [] ==> |view.slices| == 1)
    ensures view.Chart? ==>
              var selected := SelectedVote(votes, selectedId);
              var pie := PieData(selected);
              var w := WinnerIndex(pie, TotalVotes(selected));
              && view.slices == DisplayedSlices(pie, w)
              && view.zeroVoteOptions == (if IsHundredPercentWinner(w) then OtherOptions(selected.value.options, w) else [])
  {
    var selected := SelectedVote(votes, selectedId);
    if selected.None? then NothingSelected
    else
      var total := TotalVotes(selected);
      if total == 0 then NoVotesYet
      else
        var pie := PieData(selected);
        var w := WinnerIndex(pie, total);
        TotalIsPieSum(selected);
        DisplayedSlicesKeepTotal(pie);
        WinnerTakesAll(pie);
        var others := if IsHundredPercentWinner(w) then OtherOptions(selected.value.options, w) else [];
        OthersHaveNoVoters(selected.value);
        Chart(DisplayedSlices(pie, w), others)
  }

  /** `COLORS`: one colour per slice of the pie, from that slice's own draw. */
  function SliceColors(pie: seq<Slice>, draws: seq<nat>): (colors: seq<string>)
    requires |draws| == |pie| && forall k :: 0 <= k < |draws| ==> draws[k] < DrawBound
    ensures |colors| == |pie| && forall i :: 0 <= i < |pie| ==> colors[i] == HexColor(draws[i])
  {
    seq(|pie|, i requires 0 <= i < |pie| => HexColor(draws[i]))
  }

  /**
   * The fill of each drawn cell: `COLORS[isHundredPercentWinner ? winnerIndex : index]`.
   * Every drawn slice is filled with the colour of the option it stands for,
   * so the lone winner slice keeps the winner's own colour.
   */
  function CellFills(pie: seq<Slice>, w: int, colors: seq<string>): (fills: seq<string>)
    requires -1 <= w < |pie| && |colors| == |pie|
    ensures |fills| == |DisplayedSlices(pie, w)|
    ensures forall i :: 0 <= i < |fills| ==>
              var j := if IsHundredPercentWinner(w) then w else i;
              DisplayedSlices(pie, w)[i] == pie[j] && fills[i] == colors[j]
  {
    if IsHundredPercentWinner(w) then [colors[w]] else colors
  }

  /** What `getUserVotes` resolves to: `{ data }` or `{ error }`. */
  datatype LoadResult = LoadResult(data: Option<seq<Vote>>, error: Option<string>)

  /** The dashboard's state after loading: the polls, an error, and the selected poll id. */
  datatype Dashboard = Dashboard(votes: seq<Vote>, error: Option<string>, selectedId: Option<string>)

  /**
   * `fetchVotes`: a truthy error is shown and nothing else changes; otherwise
   * the reply's polls replace the list and, when there is at least one, the
   * first is selected. A reply with neither a truthy error nor data makes the
   * page read `length` of `undefined` and throw: `None`.
   */
  function LoadVotes(before: Dashboard, result: LoadResult): (after: Option<Dashboard>)
    ensures after.None? <==> !Truthy(result.error) && result.data.None?
    ensures Truthy(result.error) ==> after == Some(before.(error := result.error))
    ensures !Truthy(result.error) && result.data.Some? ==>
              after.Some? && after.value.votes == result.data.value && after.value.error == before.error
    ensures !Truthy(result.error) && result.data.Some? && result.data.value != [] ==>
              SelectedVote(after.value.votes, after.value.selectedId) == Some(result.data.value[0])
    ensures !Truthy(result.error) && result.data == Some([]) ==> after == Some(before.(votes := []))
  {
    if Truthy(result.error) then Some(before.(error := result.error))
    else if result.data.None? then None
    else
      var polls := result.data.value;
      if polls != [] then Some(before.(votes := polls, selectedId := Some(polls[0].id)))
      else Some(before.(votes := polls))
  }

  /** `${n} vote${n !== 1 ? "s" : ""}`: the count, then "vote", plural unless the count is 1. */
  function VotesLabel(n: nat): (caption: string)
    ensures |caption| >= |Decimal(n)| + 5 && caption[..|Decimal(n)|] == Decimal(n)
    ensures caption[|Decimal(n)|..|Decimal(n)| + 5] == " vote"
    ensures caption[|caption| - 1] == 's' <==> n != 1
    ensures |caption| == |Decimal(n)| + 5 + (if n != 1 then 1 else 0)
  {
    Decimal(n) + " vote" + (if n != 1 then "s" else "")
  }

  /** The pie label of a slice: `${name}: ${value} vote(s)`. */
  function SliceLabel(slice: Slice): (caption: string)
    ensures caption == slice.name + ": " + VotesLabel(slice.value)
  {
    slice.name + ": " + VotesLabel(slice.value)
  }

  /** What the tooltip shows; `voters` is `None` where it says "No voters yet.". */
  datatype TooltipView = TooltipView(title: string, countLine: string, voters: Option<seq<string>>)

  /** `k` is the position of the first option called `name`. */
  predicate IsFirstNamed(options: seq<VoteOption>, name: string, k: int) {
    0 <= k < |options| && options[k].name == name && forall j :: 0 <= j < k ==> options[j].name != name
  }

  /**
   * The voters listed for a slice name: those of the first option with that
   * name, when it has any; nothing when no option has the name or the first
   * such option has no voters.
   */
  function VotersFor(options: seq<VoteOption>, name: string): (voters: Option<seq<string>>)
    ensures voters.Some? ==>
              exists k :: IsFirstNamed(options, name, k) &&
                          voters.value == Map(options[k].users, (u: Voter) => u.voterName) && |voters.value| > 0
    ensures voters.None? ==>
              forall k :: IsFirstNamed(options, name, k) ==> options[k].users == []
  {
    var k := FindIndex(options, (o: VoteOption) => o.name == name);
    if k < 0 || |options[k].users| == 0 then None
    else Some(Map(options[k].users, (u: Voter) => u.voterName))
  }

  /**
   * `CustomTooltip`: shown only while active, with a payload and a selected
   * poll; it names the hovered slice, its count, and its option's voters.
   */
  function CustomTooltip(active: bool, payload: seq<Slice>, selected: Option<Vote>): (view: Option<TooltipView>)
    ensures view.Some? <==> active && |payload| > 0 && selected.Some?
    ensures view.Some? ==> view.value.title == payload[0].name && view.value.countLine == VotesLabel(payload[0].value)
    ensures view.Some? ==> view.value.voters == VotersFor(selected.value.options, payload[0].name)
  {
    if active && |payload| > 0 && selected.Some? then
      Some(TooltipView(payload[0].name, VotesLabel(payload[0].value), VotersFor(selected.value.options, payload[0].name)))
    else None
  }

  /**
   * Matching by name: hovering over a later option that shares its name with
   * an earlier one lists the earlier option's voters.
   */
  lemma TooltipNameShadowing(options: seq<VoteOption>, a: nat, b: nat)
    requires a < b < |options| && options[a].name == options[b].name
    requires IsFirstNamed(options, options[a].name, a) && options[a].users != []
    ensures VotersFor(options, options[b].name) == Some(Map(options[a].users, (u: Voter) => u.voterName))
  {
    var voters := VotersFor(options, options[b].name);
    if voters.Some? {
      var k :| IsFirstNamed(options, options[b].name, k) &&
               voters.value == Map(options[k].users, (u: Voter) => u.voterName);
      assert k == a;
    }
  }
}
