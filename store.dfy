/** The application's settings store (src/store/store.ts): the campaign,
    the six category headline banks and the ad-group list, with the
    reducers that replace them and the ad-group CSV dump. */
module RsaStore {
  import opened Seqs
  import opened Text

  /** An optional property (`x?: T`); `None` is `undefined`. */
  datatype Option<T> = None | Some(value: T)

  /** `x || ""` for an optional string: absent and empty both give "". */
  function OrEmpty(o: Option<string>): (s: string)
    ensures o.None? ==> s == ""
    ensures o.Some? ==> s == o.value
  {
    match o
    case None => ""
    case Some(v) => v
  }

  datatype HeadlineCategory = Benefit | Offer | Feature | Trust | Cta | Utility

  /** The key order of the `banks` record, which is the order
      `Object.values(banks)` yields the banks in. */
  const CategoryOrder: seq<HeadlineCategory> := [Benefit, Offer, Feature, Trust, Cta, Utility]

  datatype HeadlineVariant = HeadlineVariant(id: string, text: string, chars: int)

  datatype HeadlineItem = HeadlineItem(
    id: string,
    category: HeadlineCategory,
    text: string,
    variants: seq<HeadlineVariant>,
    pinned: Option<bool>,
    notes: Option<string>,
    maxLength: Option<int>)

  datatype CampaignConfig = CampaignConfig(
    campaignName: string,
    baseDomain: string,
    tag: string,
    name: string,
    description1: string,
    description2: string,
    description3: string,
    description4: string)

  datatype AdGroupConfig = AdGroupConfig(
    id: string,
    name: string,
    finalUrl: string,
    path1: Option<string>,
    path2: Option<string>,
    adsCount: nat,
    utilityHeadlines: seq<HeadlineItem>,
    customHeadlines: seq<string>)
  {
    /** `{ ...this, ...patch }`: every field the patch carries overrides ours. */
    function Patched(patch: AdGroupPatch): AdGroupConfig
    {
      AdGroupConfig(
        if patch.id.Some? then patch.id.value else id,
        if patch.name.Some? then patch.name.value else name,
        if patch.finalUrl.Some? then patch.finalUrl.value else finalUrl,
        if patch.path1.Some? then Some(patch.path1.value) else path1,
        if patch.path2.Some? then Some(patch.path2.value) else path2,
        if patch.adsCount.Some? then patch.adsCount.value else adsCount,
        if patch.utilityHeadlines.Some? then patch.utilityHeadlines.value else utilityHeadlines,
        if patch.customHeadlines.Some? then patch.customHeadlines.value else customHeadlines)
    }
  }

  /** `Partial<AdGroupConfig>`: the fields an update carries. */
  datatype AdGroupPatch = AdGroupPatch(
    id: Option<string>,
    name: Option<string>,
    finalUrl: Option<string>,
    path1: Option<string>,
    path2: Option<string>,
    adsCount: Option<nat>,
    utilityHeadlines: Option<seq<HeadlineItem>>,
    customHeadlines: Option<seq<string>>)

  const EmptyPatch := AdGroupPatch(None, None, None, None, None, None, None, None)

  /** `Record<HeadlineCategory, HeadlineItem[]>`: one bank per category. */
  datatype Banks = Banks(
    benefit: seq<HeadlineItem>,
    offer: seq<HeadlineItem>,
    feature: seq<HeadlineItem>,
    trust: seq<HeadlineItem>,
    cta: seq<HeadlineItem>,
    utility: seq<HeadlineItem>)
  {
    /** `banks[c]`. */
    function Get(c: HeadlineCategory): seq<HeadlineItem>
    {
      match c
      case Benefit => benefit
      case Offer => offer
      case Feature => feature
      case Trust => trust
      case Cta => cta
      case Utility => utility
    }

    /** `{ ...banks, [c]: items }`: bank `c` replaced, the other five kept. */
    function With(c: HeadlineCategory, items: seq<HeadlineItem>): (r: Banks)
      ensures r.Get(c) == items
      ensures forall d :: d != c ==> r.Get(d) == Get(d)
    {
      match c
      case Benefit => this.(benefit := items)
      case Offer => this.(offer := items)
      case Feature => this.(feature := items)
      case Trust => this.(trust := items)
      case Cta => this.(cta := items)
      case Utility => this.(utility := items)
    }

    /** `Object.values(banks)`: the banks in category order. */
    function Values(): (r: seq<seq<HeadlineItem>>)
      ensures |r| == |CategoryOrder|
      ensures forall i :: 0 <= i < |r| ==> r[i] == Get(CategoryOrder[i])
    {
      [benefit, offer, feature, trust, cta, utility]
    }
  }

  const EmptyCampaign := CampaignConfig("", "", "", "", "", "", "", "")
  const EmptyBanks := Banks([], [], [], [], [], [])

  /** The store's `updateAdGroup` transform:
      `adGroups.map(g => g.id === id ? { ...g, ...patch } : g)`. */
  function UpdateById(groups: seq<AdGroupConfig>, id: string, patch: AdGroupPatch): (r: seq<AdGroupConfig>)
    ensures |r| == |groups|
    ensures forall i :: 0 <= i < |groups| && groups[i].id != id ==> r[i] == groups[i]
    ensures forall i :: 0 <= i < |groups| && groups[i].id == id ==> r[i] == groups[i].Patched(patch)
  {
    if groups == [] then []
    else [if groups[0].id == id then groups[0].Patched(patch) else groups[0]]
         + UpdateById(groups[1..], id, patch)
  }

  /** An update whose id matches no group changes nothing. */
  lemma UpdateAbsentId(groups: seq<AdGroupConfig>, id: string, patch: AdGroupPatch)
    requires forall g :: g in groups ==> g.id != id
    ensures UpdateById(groups, id, patch) == groups
  {
  }

  /** An empty patch changes nothing. */
  lemma UpdateEmptyPatch(groups: seq<AdGroupConfig>, id: string)
    ensures UpdateById(groups, id, EmptyPatch) == groups
  {
    var r := UpdateById(groups, id, EmptyPatch);
    forall i | 0 <= i < |groups| ensures r[i] == groups[i] {
      var g := groups[i];
      assert g.Patched(EmptyPatch) == g;
    }
  }

  predicate HasOtherId(id: string, g: AdGroupConfig)
  {
    g.id != id
  }

  /** The store's `removeAdGroup` transform: `adGroups.filter(g => g.id !== id)`. */
  function RemoveById(groups: seq<AdGroupConfig>, id: string): (r: seq<AdGroupConfig>)
    ensures forall g :: g in r ==> g in groups && g.id != id
    ensures forall g :: g in groups && g.id != id ==> g in r
  {
    FilterMembers(g => HasOtherId(id, g), groups);
    Filter(g => HasOtherId(id, g), groups)
  }

  /** Removing splits over concatenation, so the kept groups stay in order. */
  lemma RemoveKeepsOrder(xs: seq<AdGroupConfig>, ys: seq<AdGroupConfig>, id: string)
    ensures RemoveById(xs + ys, id) == RemoveById(xs, id) + RemoveById(ys, id)
  {
    FilterAppend(g => HasOtherId(id, g), xs, ys);
  }

  /** Removing an id no group has leaves the list unchanged. */
  lemma RemoveAbsentId(groups: seq<AdGroupConfig>, id: string)
    requires forall g :: g in groups ==> g.id != id
    ensures RemoveById(groups, id) == groups
  {
    FilterKeepsAll(g => HasOtherId(id, g), groups);
  }

  /** Removing twice is removing once. */
  lemma RemoveIdempotent(groups: seq<AdGroupConfig>, id: string)
    ensures RemoveById(RemoveById(groups, id), id) == RemoveById(groups, id)
  {
    FilterIdempotent(g => HasOtherId(id, g), groups);
  }

  /** A group whose id is removed is dropped: the list shrinks by one. */
  lemma RemoveSingle(g: AdGroupConfig, id: string)
    ensures RemoveById([g], id) == if g.id == id then [] else [g]
  {
    assert [g][1..] == [];
  }

  const GroupCsvHeader: seq<string> := ["Group Name", "Final URL", "Path1", "Path2", "Ads Count"]

  /** One ad group's `exportData` cells; missing paths become "". */
  function GroupCsvFields(g: AdGroupConfig): seq<string>
  {
    [g.name, g.finalUrl, OrEmpty(g.path1), OrEmpty(g.path2), NatToString(g.adsCount)]
  }

  function GroupCsvLine(g: AdGroupConfig): string
  {
    Join(GroupCsvFields(g), ',')
  }

  /** `exportData`: the header line and one line per group, joined by newlines. */
  function GroupsCsv(groups: seq<AdGroupConfig>): string
  {
    Join([Join(GroupCsvHeader, ',')] + Map(GroupCsvLine, groups), '\n')
  }

  /** No cell of the group contains `c`. */
  predicate GroupCellsFree(g: AdGroupConfig, c: char)
  {
    c !in g.name && c !in g.finalUrl && c !in OrEmpty(g.path1) && c !in OrEmpty(g.path2)
  }

  /** When no cell contains a newline, the dump has exactly one line more
      than there are groups: the header, then each group's line in order. */
  lemma GroupsCsvLines(groups: seq<AdGroupConfig>)
    requires forall g :: g in groups ==> GroupCellsFree(g, '\n')
    ensures Split(GroupsCsv(groups), '\n') == [Join(GroupCsvHeader, ',')] + Map(GroupCsvLine, groups)
    ensures |Split(GroupsCsv(groups), '\n')| == |groups| + 1
  {
    var lines := [Join(GroupCsvHeader, ',')] + Map(GroupCsvLine, groups);
    JoinExcludes(GroupCsvHeader, ',', '\n');
    forall i | 0 <= i < |lines| ensures '\n' !in lines[i] {
      if i > 0 {
        assert groups[i - 1] in groups;
        GroupCsvLineFree(groups[i - 1]);
      }
    }
    SplitJoin(lines, '\n');
  }

  /** A group with no newline in its cells has no newline in its line. */
  lemma GroupCsvLineFree(g: AdGroupConfig)
    requires GroupCellsFree(g, '\n')
    ensures '\n' !in GroupCsvLine(g)
  {
    DecimalHasNoPunctuation(g.adsCount);
    JoinExcludes(GroupCsvFields(g), ',', '\n');
  }

  /** When no cell contains a comma, each group's line splits back into
      exactly its five cells. */
  lemma GroupCsvLineFields(g: AdGroupConfig)
    requires GroupCellsFree(g, ',')
    ensures Split(GroupCsvLine(g), ',') == GroupCsvFields(g)
    ensures |Split(GroupCsvLine(g), ',')| == 5
  {
    DecimalHasNoPunctuation(g.adsCount);
    SplitJoin(GroupCsvFields(g), ',');
  }

  lemma DecimalHasNoPunctuation(n: nat)
    ensures ',' !in NatToString(n) && '\n' !in NatToString(n)
  {
    var s := NatToString(n);
    assert forall i :: 0 <= i < |s| ==> s[i] != ',' && s[i] != '\n';
  }

  /** The store: three fields that the reducers replace wholesale. */
  class Store {
    var campaign: CampaignConfig
    var banks: Banks
    var adGroups: seq<AdGroupConfig>

    /** The initial state: an all-empty campaign, six empty banks, no groups. */
    constructor ()
      ensures campaign == EmptyCampaign
      ensures banks.Values() == [[], [], [], [], [], []]
      ensures adGroups == []
    {
      campaign := EmptyCampaign;
      banks := EmptyBanks;
      adGroups := [];
    }

    method SetCampaign(c: CampaignConfig)
      modifies this
      ensures campaign == c
      ensures banks == old(banks) && adGroups == old(adGroups)
    {
      campaign := c;
    }

    method SetBank(c: HeadlineCategory, items: seq<HeadlineItem>)
      modifies this
      ensures banks == old(banks).With(c, items)
      ensures banks.Get(c) == items
      ensures forall d :: d != c ==> banks.Get(d) == old(banks).Get(d)
      ensures campaign == old(campaign) && adGroups == old(adGroups)
    {
      banks := banks.With(c, items);
    }

    method AddAdGroup(g: AdGroupConfig)
      modifies this
      ensures adGroups == old(adGroups) + [g]
      ensures |adGroups| == |old(adGroups)| + 1 && adGroups[..|old(adGroups)|] == old(adGroups)
      ensures campaign == old(campaign) && banks == old(banks)
    {
      adGroups := adGroups + [g];
    }

    method UpdateAdGroup(id: string, patch: AdGroupPatch)
      modifies this
      ensures adGroups == UpdateById(old(adGroups), id, patch)
      ensures campaign == old(campaign) && banks == old(banks)
    {
      adGroups := UpdateById(adGroups, id, patch);
    }

    method RemoveAdGroup(id: string)
      modifies this
      ensures adGroups == RemoveById(old(adGroups), id)
      ensures campaign == old(campaign) && banks == old(banks)
    {
      adGroups := RemoveById(adGroups, id);
    }

    /** `exportData`: a read of the current groups. */
    function ExportData(): (csv: string)
      reads this
      ensures (forall g :: g in adGroups ==> GroupCellsFree(g, '\n')) ==>
                Split(csv, '\n') == [Join(GroupCsvHeader, ',')] + Map(GroupCsvLine, adGroups)
    {
      var csv := GroupsCsv(adGroups);
      assert (forall g :: g in adGroups ==> GroupCellsFree(g, '\n')) ==>
               Split(csv, '\n') == [Join(GroupCsvHeader, ',')] + Map(GroupCsvLine, adGroups) by {
        if forall g :: g in adGroups ==> GroupCellsFree(g, '\n') {
          GroupsCsvLines(adGroups);
        }
      }
      csv
    }
  }
}
