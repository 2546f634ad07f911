/** The account record of `internal/models/models.py` and its status
    rendering: `STATUS_BY_BOOL`, `campaign_points_str`, `str_stats` and the
    `*_s` properties. */
module Models {
  import opened Errors
  import Text
  import Dicts

  const CheckMark: string := "\U{2705}"
  const CrossMark: string := "\U{274C}"
  const RedCircle: string := "\U{1F534}"

  /** `STATUS_BY_BOOL`: True renders as a check mark, False as a cross. */
  function StatusByBool(b: bool): (s: string)
    ensures |s| == 1
    ensures StatusToBool(s) == Some(b)
  {
    if b then CheckMark else CrossMark
  }

  /** Reads a status mark back. */
  function StatusToBool(s: string): Option<bool> {
    if s == CheckMark then Some(true)
    else if s == CrossMark then Some(false)
    else None
  }

  /** One campaign's entry of `points`: (name, points, completed or None). */
  datatype Campaign = Campaign(name: string, points: int, done: Option<bool>)

  /** A stored value of `points`: a 3-tuple, or a falsy value (None or an
      empty tuple, which a loaded JSON file could hold). */
  datatype PointsValue = Entry(campaign: Campaign) | Falsy

  /** The `points` dict: campaign ids to their entries, in insertion order,
      each id at most once. */
  type Points = d: Dicts.Dict<string, PointsValue> | Dicts.Distinct(Dicts.Keys(d)) witness []

  /** `AccountInfo`; `points` maps campaign ids to their entries. */
  datatype AccountInfo = AccountInfo(
    idx: int,
    evmAddress: string,
    evmPrivateKey: string,
    proxy: string,
    twitterAuthToken: string,
    emailUsername: string,
    emailPassword: string,
    twitterError: bool,
    points: Points,
    dripBera: bool,
    swapBera: bool,
    mintHoney: bool)

  /** Rendering of a truthy entry: `str(points)`, then " / " and the status
      mark when the completion flag is not None. */
  function PointsText(c: Campaign): string {
    Text.IntToString(c.points) + (if c.done.Some? then " / " + StatusByBool(c.done.value) else "")
  }

  /** `campaign_points_str(campaign_id)` */
  function CampaignPointsStr(a: AccountInfo, campaignId: string): (s: string)
    ensures Dicts.Get(a.points, campaignId).None? ==> s == "0"
    ensures Dicts.Get(a.points, campaignId) == Some(Falsy) ==> s == "0"
    ensures Dicts.Get(a.points, campaignId).Some? && Dicts.Get(a.points, campaignId).value.Entry? ==>
      ParsePointsText(s) == Some((Dicts.Get(a.points, campaignId).value.campaign.points,
                                  Dicts.Get(a.points, campaignId).value.campaign.done))
  {
    var stored: Option<PointsValue> := Dicts.Get(a.points, campaignId);
    match stored
    case None => "0"
    case Some(Falsy) => "0"
    case Some(Entry(c)) =>
      PointsTextRoundTrip(c);
      PointsText(c)
  }

  /** Reads a rendered points text back into (points, completion flag). */
  function ParsePointsText(s: string): Option<(int, Option<bool>)> {
    if |s| >= 4 && s[|s| - 4..|s| - 1] == " / " then
      match (Text.ParseInt(s[..|s| - 4]), StatusToBool(s[|s| - 1..]))
      case (Some(n), Some(b)) => Some((n, Some(b)))
      case _ => None
    else
      match Text.ParseInt(s)
      case Some(n) => Some((n, None))
      case None => None
  }

  /** The rendering of a campaign entry loses nothing: the points and the
      completion flag can be read back from it. */
  lemma PointsTextRoundTrip(c: Campaign)
    ensures ParsePointsText(PointsText(c)) == Some((c.points, c.done))
  {
    var n := Text.IntToString(c.points);
    Text.IntToStringRoundTrip(c.points);
    var s := PointsText(c);
    if c.done.Some? {
      var mark := StatusByBool(c.done.value);
      assert s == n + " / " + mark;
      assert s[..|s| - 4] == n;
      assert s[|s| - 4..|s| - 1] == " / ";
      assert s[|s| - 1..] == mark;
    } else {
      assert s == n;
      if |s| >= 4 {
        assert s[|s| - 4..|s| - 1][1] == s[|s| - 3];
        assert s[|s| - 3] in n;
      }
    }
  }

  /** Only the rendering reads back: a text that parses to some points and
      flag is exactly the rendering of an entry with them, so the contract of
      `CampaignPointsStr` fixes its text. */
  lemma ParsePointsTextExact(s: string, c: Campaign)
    requires ParsePointsText(s) == Some((c.points, c.done))
    ensures s == PointsText(c)
  {
    if |s| >= 4 && s[|s| - 4..|s| - 1] == " / " {
      var n := s[..|s| - 4];
      var mark := s[|s| - 1..];
      Text.ParseIntExact(n, c.points);
      assert StatusByBool(c.done.value) == mark;
      assert s == n + " / " + mark;
    } else {
      Text.ParseIntExact(s, c.points);
    }
  }

  // ---------------------------------------------------------------------
  // str_stats
  // ---------------------------------------------------------------------

  const DripLabel: string := "Drip $BERA "
  const SwapLabel: string := "Swap $BERA "
  const MintLabel: string := "Mint $HONEY"

  /** The first `k` entries of `points` are all 3-tuples. */
  predicate EntriesUpTo(points: Dicts.Dict<string, PointsValue>, k: nat) {
    k <= |points| && forall i :: 0 <= i < k ==> points[i].1.Entry?
  }

  /** Every entry of `points` is a 3-tuple. */
  predicate NoFalsy(points: Dicts.Dict<string, PointsValue>) {
    EntriesUpTo(points, |points|)
  }

  /** The campaign names of the first `k` entries, in `points` order. */
  function NamesUpTo(points: Dicts.Dict<string, PointsValue>, k: nat): (ns: seq<string>)
    requires EntriesUpTo(points, k)
    ensures |ns| == k
    ensures forall i :: 0 <= i < k ==> ns[i] == points[i].1.campaign.name
  {
    seq(k, i requires 0 <= i < k => points[i].1.campaign.name)
  }

  /** The campaign names, in `points` order. */
  function Names(points: Dicts.Dict<string, PointsValue>): (ns: seq<string>)
    requires NoFalsy(points)
    ensures |ns| == |points|
  {
    NamesUpTo(points, |points|)
  }

  /** The names of `k` entries are those of `k - 1` entries and one more;
      when they are distinct, so are the first `k - 1`, and the last differs
      from all of them. */
  lemma NamesUpToStep(points: Dicts.Dict<string, PointsValue>, k: nat)
    requires 0 < k && EntriesUpTo(points, k)
    ensures NamesUpTo(points, k) == NamesUpTo(points, k - 1) + [points[k - 1].1.campaign.name]
    ensures Dicts.Distinct(NamesUpTo(points, k)) ==>
      && Dicts.Distinct(NamesUpTo(points, k - 1))
      && forall j :: 0 <= j < k - 1 ==> points[j].1.campaign.name != points[k - 1].1.campaign.name
  {
    var before := NamesUpTo(points, k - 1);
    var after := NamesUpTo(points, k);
    assert after == before + [points[k - 1].1.campaign.name];
    if Dicts.Distinct(after) {
      forall j | 0 <= j < k - 1 ensures points[j].1.campaign.name != points[k - 1].1.campaign.name {
        assert after[j] != after[k - 1];
      }
    }
  }

  /** No campaign name contains a newline. */
  predicate PlainNames(a: AccountInfo) {
    forall i :: 0 <= i < |a.points| && a.points[i].1.Entry? ==> '\n' !in a.points[i].1.campaign.name
  }

  /** No key or value of a stats dict contains a newline. */
  predicate PlainEntries(d: Dicts.Dict<string, string>) {
    forall i :: 0 <= i < |d| ==> '\n' !in d[i].0 && '\n' !in d[i].1
  }

  lemma PlainPointsText(c: Campaign)
    ensures '\n' !in PointsText(c)
  {
    var n := Text.IntToString(c.points);
    assert '\n' !in n;
  }

  lemma PlainSet(d: Dicts.Dict<string, string>, k: string, v: string)
    requires PlainEntries(d) && '\n' !in k && '\n' !in v
    ensures PlainEntries(Dicts.Set(d, k, v))
  {
    Dicts.SetEntries(d, k, v);
    var d' := Dicts.Set(d, k, v);
    forall i | 0 <= i < |d'| ensures '\n' !in d'[i].0 && '\n' !in d'[i].1 {
      if d'[i] != (k, v) {
        var j :| 0 <= j < |d| && d[j] == d'[i];
      }
    }
  }

  /** The dict comprehension `{n: campaign_points_str(c_id) for c_id, (n, _, _)
      in points.items()}` over the first `k` entries of `points`; None when
      an entry cannot be unpacked into three parts. */
  function CampaignStats(a: AccountInfo, k: nat): (d: Option<Dicts.Dict<string, string>>)
    requires k <= |a.points|
    ensures d.Some? <==> EntriesUpTo(a.points, k)
    ensures d.Some? ==> Dicts.Distinct(Dicts.Keys(d.value))
    ensures d.Some? ==> forall i :: 0 <= i < k ==> a.points[i].1.campaign.name in Dicts.Keys(d.value)
    ensures d.Some? && Dicts.Distinct(NamesUpTo(a.points, k)) ==> Dicts.Keys(d.value) == NamesUpTo(a.points, k)
    ensures d.Some? && PlainNames(a) ==> PlainEntries(d.value)
    decreases k
  {
    if k == 0 then Some([])
    else
      match CampaignStats(a, k - 1)
      case None => None
      case Some(d) =>
        match a.points[k - 1]
        case (id, Falsy) => None
        case (id, Entry(c)) =>
          CampaignStatsStep(a, k, d, id, c);
          Some(Dicts.Set(d, c.name, CampaignPointsStr(a, id)))
  }

  /** One step of the comprehension keeps the stats dict's invariants. */
  lemma CampaignStatsStep(a: AccountInfo, k: nat, d: Dicts.Dict<string, string>, id: string, c: Campaign)
    requires 0 < k <= |a.points| && a.points[k - 1] == (id, Entry(c))
    requires EntriesUpTo(a.points, k - 1)
    requires Dicts.Distinct(Dicts.Keys(d))
    requires Dicts.Distinct(NamesUpTo(a.points, k - 1)) ==> Dicts.Keys(d) == NamesUpTo(a.points, k - 1)
    requires PlainNames(a) ==> PlainEntries(d)
    requires forall i :: 0 <= i < k - 1 ==> a.points[i].1.campaign.name in Dicts.Keys(d)
    ensures EntriesUpTo(a.points, k)
    ensures var d' := Dicts.Set(d, c.name, CampaignPointsStr(a, id));
      && Dicts.Distinct(Dicts.Keys(d'))
      && (forall i :: 0 <= i < k ==> a.points[i].1.campaign.name in Dicts.Keys(d'))
      && (Dicts.Distinct(NamesUpTo(a.points, k)) ==> Dicts.Keys(d') == NamesUpTo(a.points, k))
      && (PlainNames(a) ==> PlainEntries(d'))
  {
    var v := CampaignPointsStr(a, id);
    EntriesStep(a.points, k);
    Dicts.SetKeepsDistinct(d, c.name, v);
    StepKeys(a, k, d, c.name, v);
    StepNames(a, k, d, c, v);
    if PlainNames(a) {
      StepPlain(a, k, d, id, c);
    }
  }

  lemma EntriesStep(points: Points, k: nat)
    requires 0 < k <= |points| && EntriesUpTo(points, k - 1) && points[k - 1].1.Entry?
    ensures EntriesUpTo(points, k)
  {
  }

  lemma StepKeys(a: AccountInfo, k: nat, d: Dicts.Dict<string, string>, name: string, v: string)
    requires 0 < k && EntriesUpTo(a.points, k)
    requires a.points[k - 1].1.campaign.name == name
    requires forall i :: 0 <= i < k - 1 ==> a.points[i].1.campaign.name in Dicts.Keys(d)
    ensures forall i :: 0 <= i < k ==> a.points[i].1.campaign.name in Dicts.Keys(Dicts.Set(d, name, v))
  {
    var d' := Dicts.Set(d, name, v);
    assert name in Dicts.Keys(d');
    assert forall n :: n in Dicts.Keys(d) ==> n in Dicts.Keys(d');
  }

  lemma StepNames(a: AccountInfo, k: nat, d: Dicts.Dict<string, string>, c: Campaign, v: string)
    requires 0 < k && EntriesUpTo(a.points, k) && a.points[k - 1].1 == Entry(c)
    requires Dicts.Distinct(NamesUpTo(a.points, k - 1)) ==> Dicts.Keys(d) == NamesUpTo(a.points, k - 1)
    ensures Dicts.Distinct(NamesUpTo(a.points, k)) ==> Dicts.Keys(Dicts.Set(d, c.name, v)) == NamesUpTo(a.points, k)
  {
    NamesUpToStep(a.points, k);
    if Dicts.Distinct(NamesUpTo(a.points, k)) {
      var before := NamesUpTo(a.points, k - 1);
      assert forall j :: 0 <= j < k - 1 ==> before[j] != c.name;
      assert c.name !in Dicts.Keys(d);
    }
  }

  lemma StepPlain(a: AccountInfo, k: nat, d: Dicts.Dict<string, string>, id: string, c: Campaign)
    requires 0 < k <= |a.points| && a.points[k - 1] == (id, Entry(c))
    requires PlainNames(a) && PlainEntries(d)
    ensures PlainEntries(Dicts.Set(d, c.name, CampaignPointsStr(a, id)))
  {
    var v := CampaignPointsStr(a, id);
    assert '\n' !in c.name;
    assert '\n' !in v by {
      if v != "0" {
        PlainPointsText(Dicts.Get(a.points, id).value.campaign);
      }
    }
    PlainSet(d, c.name, v);
  }

  const Labels: set<string> := {DripLabel, SwapLabel, MintLabel}

  /** The `stats` dict of `str_stats`: the campaign entries keyed by name,
      then the three fixed entries set over them. */
  function Stats(a: AccountInfo): (d: Option<Dicts.Dict<string, string>>)
    ensures d.Some? <==> NoFalsy(a.points)
    ensures d.Some? ==> Dicts.Distinct(Dicts.Keys(d.value))
    ensures d.Some? ==> Dicts.Get(d.value, DripLabel) == Some(StatusByBool(a.dripBera))
    ensures d.Some? ==> Dicts.Get(d.value, SwapLabel) == Some(StatusByBool(a.swapBera))
    ensures d.Some? ==> Dicts.Get(d.value, MintLabel) == Some(StatusByBool(a.mintHoney))
    ensures d.Some? ==> forall n :: n !in Labels ==>
      Dicts.Get(d.value, n) == Dicts.Get(CampaignStats(a, |a.points|).value, n)
    ensures d.Some? ==> forall i :: 0 <= i < |a.points| ==> a.points[i].1.campaign.name in Dicts.Keys(d.value)
    ensures d.Some? && Dicts.Distinct(Names(a.points)) && (forall n :: n in Names(a.points) ==> n !in Labels) ==>
      Dicts.Keys(d.value) == Names(a.points) + [DripLabel, SwapLabel, MintLabel]
    ensures d.Some? && PlainNames(a) ==> PlainEntries(d.value)
  {
    match CampaignStats(a, |a.points|)
    case None => None
    case Some(d0) =>
      FixedValues(a, d0);
      FixedKeys(a, d0);
      if PlainNames(a) then
        FixedPlain(a, d0);
        Some(WithFixedEntries(a, d0))
      else
        Some(WithFixedEntries(a, d0))
  }

  /** The three entries `str_stats` sets over the campaign entries. */
  function FixedEntries(a: AccountInfo): (es: Dicts.Dict<string, string>)
    ensures Dicts.Keys(es) == [DripLabel, SwapLabel, MintLabel]
  {
    var es := [(DripLabel, StatusByBool(a.dripBera)), (SwapLabel, StatusByBool(a.swapBera)),
               (MintLabel, StatusByBool(a.mintHoney))];
    assert Dicts.Keys(es)[0] == DripLabel && Dicts.Keys(es)[1] == SwapLabel && Dicts.Keys(es)[2] == MintLabel;
    es
  }

  /** The `stats.update({...})` with the drip, swap and mint entries. */
  function WithFixedEntries(a: AccountInfo, d0: Dicts.Dict<string, string>): Dicts.Dict<string, string> {
    Dicts.Update(d0, FixedEntries(a))
  }

  lemma LabelsDistinct()
    ensures Dicts.Distinct([DripLabel, SwapLabel, MintLabel])
  {
    assert DripLabel[0] != SwapLabel[0] && DripLabel[0] != MintLabel[0] && SwapLabel[0] != MintLabel[0];
  }

  /** The update sets the three labels and leaves every other key's value alone. */
  lemma FixedValues(a: AccountInfo, d0: Dicts.Dict<string, string>)
    ensures var d := WithFixedEntries(a, d0);
      && Dicts.Get(d, DripLabel) == Some(StatusByBool(a.dripBera))
      && Dicts.Get(d, SwapLabel) == Some(StatusByBool(a.swapBera))
      && Dicts.Get(d, MintLabel) == Some(StatusByBool(a.mintHoney))
      && forall n :: n !in Labels ==> Dicts.Get(d, n) == Dicts.Get(d0, n)
  {
    var es := FixedEntries(a);
    LabelsDistinct();
    Dicts.UpdateSets(d0, es, 0);
    Dicts.UpdateSets(d0, es, 1);
    Dicts.UpdateSets(d0, es, 2);
    forall n | n !in Labels ensures Dicts.Get(WithFixedEntries(a, d0), n) == Dicts.Get(d0, n) {
      Dicts.UpdateOthers(d0, es, n);
    }
  }

  /** The update keeps every key and their distinctness, and appends the
      labels in order when none of them was a key before. */
  lemma FixedKeys(a: AccountInfo, d0: Dicts.Dict<string, string>)
    requires Dicts.Distinct(Dicts.Keys(d0))
    ensures var d := WithFixedEntries(a, d0);
      && Dicts.Distinct(Dicts.Keys(d))
      && (forall n :: n in Dicts.Keys(d0) ==> n in Dicts.Keys(d))
      && ((forall n :: n in Dicts.Keys(d0) ==> n !in Labels) ==>
            Dicts.Keys(d) == Dicts.Keys(d0) + [DripLabel, SwapLabel, MintLabel])
  {
    var es := FixedEntries(a);
    Dicts.UpdateKeys(d0, es);
    if forall n :: n in Dicts.Keys(d0) ==> n !in Labels {
      LabelsDistinct();
      assert forall k :: k in Dicts.Keys(es) ==> k in Labels;
      Dicts.UpdateFresh(d0, es, Dicts.Keys(d0));
    }
  }

  lemma {:induction false} PlainUpdate(d: Dicts.Dict<string, string>, es: Dicts.Dict<string, string>)
    requires PlainEntries(d) && PlainEntries(es)
    ensures PlainEntries(Dicts.Update(d, es))
    decreases |es|
  {
    if |es| > 0 {
      PlainSet(d, es[0].0, es[0].1);
      PlainUpdate(Dicts.Set(d, es[0].0, es[0].1), es[1..]);
    }
  }

  lemma FixedPlain(a: AccountInfo, d0: Dicts.Dict<string, string>)
    requires PlainEntries(d0)
    ensures PlainEntries(WithFixedEntries(a, d0))
  {
    PlainUpdate(d0, FixedEntries(a));
  }

  /** With distinct campaign names, each name's stats value is the rendering
      of its own entry. */
  lemma StatsCampaignValue(a: AccountInfo, i: nat)
    requires NoFalsy(a.points) && i < |a.points|
    requires LastWithName(a.points, |a.points|, i)
    requires a.points[i].1.campaign.name !in Labels
    ensures Dicts.Get(Stats(a).value, a.points[i].1.campaign.name) == Some(PointsText(a.points[i].1.campaign))
  {
    CampaignStatsGet(a, |a.points|, i);
    Dicts.GetAt(a.points, i);
  }

  /** After the first `k` entries of the comprehension, the value of the
      `i`-th entry's name is that entry's rendering, as long as no later
      entry reuses the name. */
  lemma {:induction false} CampaignStatsGet(a: AccountInfo, k: nat, i: nat)
    requires i < k && EntriesUpTo(a.points, k)
    requires LastWithName(a.points, k, i)
    ensures Dicts.Get(CampaignStats(a, k).value, a.points[i].1.campaign.name) == Some(CampaignPointsStr(a, a.points[i].0))
    decreases k
  {
    var (id, c) := (a.points[k - 1].0, a.points[k - 1].1.campaign);
    var d := CampaignStats(a, k - 1).value;
    assert CampaignStats(a, k) == Some(Dicts.Set(d, c.name, CampaignPointsStr(a, id)));
    if i < k - 1 {
      assert c.name != a.points[i].1.campaign.name;
      CampaignStatsGet(a, k - 1, i);
    }
  }

  /** Entry `i` is the last of the first `k` entries to carry its campaign
      name, so a later entry with the same name does not overwrite it. */
  predicate LastWithName(points: Points, k: nat, i: nat)
    requires i < k && EntriesUpTo(points, k)
  {
    forall j :: i < j < k ==> points[j].1.campaign.name != points[i].1.campaign.name
  }

  /** One line of the rendering: "\t{name}: {value}". */
  function StatLine(entry: (string, string)): string {
    "\t" + entry.0 + ": " + entry.1
  }

  /** `''.join(f'\t{name}: {value}\n' for ...)` */
  function Concat(d: Dicts.Dict<string, string>): string
    decreases |d|
  {
    if |d| == 0 then "" else StatLine(d[0]) + "\n" + Concat(d[1..])
  }

  /** The rendered string with its last character dropped (`[:-1]`). */
  function DropLast(s: string): string {
    if |s| == 0 then s else s[..|s| - 1]
  }

  function Lines(d: Dicts.Dict<string, string>): (ls: seq<string>)
    ensures |ls| == |d|
  {
    seq(|d|, i requires 0 <= i < |d| => StatLine(d[i]))
  }

  /** `str_stats()`; None when an entry of `points` cannot be unpacked. */
  function StrStats(a: AccountInfo): (s: Option<string>)
    ensures s.Some? <==> NoFalsy(a.points)
    ensures s.Some? ==> s.value == Text.Join(Lines(Stats(a).value), '\n')
  {
    match Stats(a)
    case None => None
    case Some(d) =>
      ConcatIsJoin(d);
      Some(DropLast(Concat(d)))
  }

  /** Writing every line with a trailing newline and dropping the last
      character is joining the lines with newlines. */
  lemma {:induction false} ConcatIsJoin(d: Dicts.Dict<string, string>)
    requires |d| > 0
    ensures DropLast(Concat(d)) == Text.Join(Lines(d), '\n')
    decreases |d|
  {
    if |d| == 1 {
      assert Concat(d) == StatLine(d[0]) + "\n" + "";
    } else {
      ConcatIsJoin(d[1..]);
      assert Lines(d)[1..] == Lines(d[1..]);
      var rest := Concat(d[1..]);
      assert |rest| > 0;
      assert Concat(d) == StatLine(d[0]) + "\n" + rest;
      assert DropLast(Concat(d)) == StatLine(d[0]) + "\n" + DropLast(rest);
    }
  }

  /** Splitting the rendering on newlines gives exactly one line per entry
      of `stats` (as long as no campaign name contains a newline). */
  lemma StrStatsLines(a: AccountInfo)
    requires NoFalsy(a.points)
    requires PlainNames(a)
    ensures
      var d := Stats(a).value;
      Text.Split(StrStats(a).value, '\n') == Lines(d)
  {
    var d := Stats(a).value;
    assert |d| > 0 by {
      Dicts.GetIffKey(d, DripLabel);
    }
    forall i | 0 <= i < |d| ensures '\n' !in Lines(d)[i] {
      PlainStatLine(d[i]);
    }
    Text.SplitJoin(Lines(d), '\n');
  }

  lemma PlainStatLine(entry: (string, string))
    requires '\n' !in entry.0 && '\n' !in entry.1
    ensures '\n' !in StatLine(entry)
  {
  }

  // ---------------------------------------------------------------------
  // Properties
  // ---------------------------------------------------------------------

  function DripBeraS(a: AccountInfo): (s: string)
    ensures StatusToBool(s) == Some(a.dripBera)
  {
    StatusByBool(a.dripBera)
  }

  function SwapBeraS(a: AccountInfo): (s: string)
    ensures StatusToBool(s) == Some(a.swapBera)
  {
    StatusByBool(a.swapBera)
  }

  function MintHoneyS(a: AccountInfo): (s: string)
    ensures StatusToBool(s) == Some(a.mintHoney)
  {
    StatusByBool(a.mintHoney)
  }

  /** `twitter_error_s`: a red circle iff the account has a Twitter error. */
  function TwitterErrorS(a: AccountInfo): (s: string)
    ensures s != "" <==> a.twitterError
    ensures s != "" ==> s == RedCircle
  {
    if a.twitterError then RedCircle else ""
  }
}
