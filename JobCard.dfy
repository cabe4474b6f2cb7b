/** One job card of the listing: the "posted N days ago" badge, the
    29-word description preview and the positions badge. */
module JobCard {
  import opened Wrappers
  import opened Text
  import opened Seqs

  // ---------------------------------------------------------------- days ago

  const MillisPerDay: nat := 1000 * 24 * 60 * 60

  /** `daysAgoFunction`: whole days from `createdMs` to `nowMs`, rounded
      down; `None` is NaN, for a missing or unreadable `createdAt`. Both
      times are milliseconds since the epoch. */
  function DaysAgo(nowMs: int, createdMs: Option<int>): (r: Option<int>)
    ensures r.None? <==> createdMs.None?
    ensures r.Some? ==> r.value * MillisPerDay <= nowMs - createdMs.value < (r.value + 1) * MillisPerDay
  {
    if createdMs.None? then None else Some((nowMs - createdMs.value) / MillisPerDay)
  }

  /** A posting less than a day old is "0 days" old, one a day later is 1. */
  lemma DaysAgoSteps(nowMs: int, createdMs: int)
    ensures 0 <= nowMs - createdMs < MillisPerDay ==> DaysAgo(nowMs, Some(createdMs)) == Some(0)
    ensures DaysAgo(nowMs + MillisPerDay, Some(createdMs)).value == DaysAgo(nowMs, Some(createdMs)).value + 1
  {
    var d := DaysAgo(nowMs, Some(createdMs)).value;
    var e := DaysAgo(nowMs + MillisPerDay, Some(createdMs)).value;
    assert d * MillisPerDay <= nowMs - createdMs < (d + 1) * MillisPerDay;
    assert (e - 1) * MillisPerDay <= nowMs - createdMs < e * MillisPerDay;
  }

  /** The badge text. */
  function BadgeText(daysAgo: Option<int>): string {
    match daysAgo
    case None => "NaN days ago"
    case Some(d) => if d == 0 then "Today" else IntToString(d) + " days ago"
  }

  /** The badge colour: green for today, blue up to a week, grey otherwise. */
  datatype BadgeTier = Fresh | Recent | Older

  function Tier(daysAgo: Option<int>): BadgeTier {
    match daysAgo
    case None => Older
    case Some(d) => if d == 0 then Fresh else if d <= 7 then Recent else Older
  }

  /** The badge says "Today" exactly when the posting is zero days old, and
      then it is green; a posting dated in the future (a negative count) is
      blue, and NaN is grey. */
  lemma BadgeTodayIff(daysAgo: Option<int>)
    ensures BadgeText(daysAgo) == "Today" <==> daysAgo == Some(0)
    ensures BadgeText(daysAgo) == "Today" <==> Tier(daysAgo) == Fresh
    ensures daysAgo.Some? && daysAgo.value < 0 ==> Tier(daysAgo) == Recent
  {
    if daysAgo.Some? && daysAgo.value != 0 {
      assert |BadgeText(daysAgo)| >= 1 + |" days ago"|;
    }
  }

  // ---------------------------------------------------------------- preview

  const PreviewWords: nat := 29

  /** `description.split(" ").slice(0, 29).join(" ")`; `None` renders nothing. */
  function Preview(description: Option<string>): Option<string> {
    match description
    case None => None
    case Some(d) => Some(Join(Take(Split(d, ' '), PreviewWords), ' '))
  }

  /** The "..." after the preview. */
  function Ellipsis(description: Option<string>): string {
    if description.Some? && |Split(description.value, ' ')| > PreviewWords then "..." else ""
  }

  /** A description of at most 29 words is shown whole and without "...". */
  lemma ShortDescriptionShownWhole(d: string)
    requires |Split(d, ' ')| <= PreviewWords
    ensures Preview(Some(d)) == Some(d) && Ellipsis(Some(d)) == ""
  {
    JoinSplit(d, ' ');
    assert Take(Split(d, ' '), PreviewWords) == Split(d, ' ');
  }

  /** A longer one is cut to a prefix made of exactly its first 29 words and
      followed by "..."; the preview is then shorter than the description. */
  lemma LongDescriptionCut(d: string)
    requires |Split(d, ' ')| > PreviewWords
    ensures var p := Preview(Some(d)).value;
            && p <= d && |p| < |d|
            && Split(p, ' ') == Split(d, ' ')[..PreviewWords]
            && Ellipsis(Some(d)) == "..."
  {
    var words := Split(d, ' ');
    var p := Join(words[..PreviewWords], ' ');
    JoinSplitPrefix(d, ' ', PreviewWords);
    JoinSplit(d, ' ');
    JoinAt(words, ' ', PreviewWords);
    assert forall w | w in words[..PreviewWords] :: w in words;
    SplitJoin(words[..PreviewWords], ' ');
  }

  // ---------------------------------------------------------------- positions badge

  /** `{position} Position{position !== 1 ? "s" : ""}`; a missing position
      renders nothing before the word. */
  function PositionLabel(position: Option<int>): string {
    (if position.Some? then IntToString(position.value) else "")
    + " Position" + (if position != Some(1) then "s" else "")
  }

  /** The word is singular exactly for one position. */
  lemma PositionPlural(position: Option<int>)
    ensures var l := PositionLabel(position);
            |l| > 0 && (l[|l| - 1] == 's' <==> position != Some(1))
  {
  }
}
