/** Content items as the aggregator reads them, and the small per-item rules:
    the status whitelist, the effective post instant and the platform label. */
module Content {
  import opened Optional

  /** The four statuses the update route accepts. */
  datatype Status = Idea | InProgress | Scheduled | Posted

  function StatusName(s: Status): string {
    match s
    case Idea => "Idea"
    case InProgress => "In Progress"
    case Scheduled => "Scheduled"
    case Posted => "Posted"
  }

  /** The status whitelist: a stored status string names one of the four
      statuses, or none. */
  function ParseStatus(name: string): (r: Option<Status>)
    ensures r.Some? ==> StatusName(r.value) == name
  {
    if name == "Idea" then Some(Idea)
    else if name == "In Progress" then Some(InProgress)
    else if name == "Scheduled" then Some(Scheduled)
    else if name == "Posted" then Some(Posted)
    else None
  }

  /** Every status survives a round trip through its name, and the whitelist
      accepts nothing else. */
  lemma ParseStatusRoundTrip(s: Status, name: string)
    ensures ParseStatus(StatusName(s)) == Some(s)
    ensures ParseStatus(name).Some? <==> name in {"Idea", "In Progress", "Scheduled", "Posted"}
  {
  }

  /** A stored content row. The status is the stored string, which the create
      route does not restrict; instants are seconds since the epoch. */
  datatype Item = Item(status: string, scheduled: Option<int>, platform: string, createdAt: Option<int>)

  /** The instant an item counts as posted at: a Posted item's scheduled time,
      falling back to its creation time; a Scheduled item's scheduled time;
      nothing for every other status. */
  function PostInstant(it: Item): Option<int> {
    match ParseStatus(it.status)
    case Some(Posted) => if it.scheduled.Some? then it.scheduled else it.createdAt
    case Some(Scheduled) => it.scheduled
    case _ => None
  }

  /** Which items have a post instant, and where it comes from. */
  lemma PostInstantCases(it: Item)
    ensures PostInstant(it).Some? <==>
              (it.status == "Posted" && (it.scheduled.Some? || it.createdAt.Some?))
              || (it.status == "Scheduled" && it.scheduled.Some?)
    ensures PostInstant(it).Some? && it.scheduled.Some? ==> PostInstant(it) == it.scheduled
    ensures PostInstant(it).Some? && it.scheduled.None? ==>
              it.status == "Posted" && PostInstant(it) == it.createdAt
  {
  }

  /** Python's `str.isspace` for a single character. */
  predicate IsSpace(c: char) {
    || c == ' ' || c == '\t' || c == '\n' || c == '\r' || c == '\U{000B}' || c == '\U{000C}'
    || ('\U{001C}' <= c <= '\U{001F}') || c == '\U{0085}' || c == '\U{00A0}' || c == '\U{1680}'
    || ('\U{2000}' <= c <= '\U{200A}') || c == '\U{2028}' || c == '\U{2029}' || c == '\U{202F}'
    || c == '\U{205F}' || c == '\U{3000}'
  }

  predicate AllSpace(s: string) {
    forall k :: 0 <= k < |s| ==> IsSpace(s[k])
  }

  /** Number of leading whitespace characters. */
  function LeadingSpaces(s: string): (i: nat)
    ensures i <= |s|
    ensures AllSpace(s[..i])
    ensures i < |s| ==> !IsSpace(s[i])
  {
    if |s| == 0 || !IsSpace(s[0]) then 0
    else
      var i := 1 + LeadingSpaces(s[1..]);
      assert forall k :: 1 <= k < i ==> s[k] == s[1..][k - 1];
      i
  }

  /** Length of `s` once its trailing whitespace is dropped. */
  function TrailingEnd(s: string): (j: nat)
    ensures j <= |s|
    ensures AllSpace(s[j..])
    ensures j > 0 ==> !IsSpace(s[j - 1])
  {
    if |s| == 0 || !IsSpace(s[|s| - 1]) then |s|
    else
      var j := TrailingEnd(s[..|s| - 1]);
      assert forall k :: j <= k < |s| - 1 ==> s[k] == s[..|s| - 1][k];
      j
  }

  /** Python's `str.strip()` with no arguments. */
  function Strip(s: string): string {
    var t := s[LeadingSpaces(s)..];
    t[..TrailingEnd(t)]
  }

  /** Stripping a string without surrounding whitespace leaves it unchanged. */
  lemma StripTrimmed(s: string)
    requires s != [] ==> !IsSpace(s[0]) && !IsSpace(s[|s| - 1])
    ensures Strip(s) == s
  {
    assert LeadingSpaces(s) == 0;
    assert s[0..] == s;
    assert TrailingEnd(s) == |s|;
  }

  /** `Strip` removes whitespace only at the two ends, all of it there, and
      nothing else; stripping twice is stripping once. */
  lemma StripSpec(s: string)
    ensures var r := Strip(s);
      && (r == [] <==> AllSpace(s))
      && (r != [] ==> !IsSpace(r[0]) && !IsSpace(r[|r| - 1]))
      && (exists i, j :: 0 <= i <= j <= |s| && r == s[i..j] && AllSpace(s[..i]) && AllSpace(s[j..]))
      && Strip(r) == r
  {
    var i := LeadingSpaces(s);
    var t := s[i..];
    var j := TrailingEnd(t);
    var r := Strip(s);
    assert r == s[i..i + j];
    assert s[i + j..] == t[j..];
    if r == [] {
      forall k | 0 <= k < |s| ensures IsSpace(s[k]) {
        if k < i { assert s[k] == s[..i][k]; }
      }
    } else {
      assert r[0] == t[0] && r[|r| - 1] == t[j - 1];
    }
    StripTrimmed(r);
  }

  /** The platform label counted in the breakdown: an empty platform becomes
      "Other" before stripping, and a label that strips to nothing becomes
      "Other" after. */
  function PlatformLabel(p: string): string {
    var q := Strip(if p == "" then "Other" else p);
    if q == "" then "Other" else q
  }

  /** Labels are never blank and carry no surrounding whitespace; a blank or
      whitespace-only platform is "Other", and any other platform is its
      stripped self. */
  lemma PlatformLabelSpec(p: string)
    ensures var l := PlatformLabel(p);
      && l != []
      && !IsSpace(l[0]) && !IsSpace(l[|l| - 1])
      && (AllSpace(p) ==> l == "Other")
      && (!AllSpace(p) ==> l == Strip(p))
  {
    var other := "Other";
    assert other[0] == 'O' && other[|other| - 1] == 'r';
    StripTrimmed(other);
    StripSpec(p);
  }
}
