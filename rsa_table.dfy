/** The RSA row builder (src/utils/build-rsa-table.ts): the variant
    resolver that picks one `;`-separated phrasing of a headline template per
    ad, and the assembler that turns the campaign, the banks and the ad
    groups into one export row per (group, ad index) with exactly 15
    headline slots. */
module RsaTable {
  import opened Seqs
  import opened Text
  import opened RsaStore

  /** `MAX_HEADLINES`. */
  const MaxHeadlines: nat := 15

  /** `i % k` for non-negative `i` and positive `k`, written as repeated
      subtraction so that the rotation arithmetic stays linear. */
  function Mod(i: nat, k: nat): (r: nat)
    requires k > 0
    ensures r < k
    ensures r == i % k
  {
    if i < k then i else ModStep(i, k); Mod(i - k, k)
  }

  /** Subtracting the modulus once leaves the remainder unchanged. */
  lemma ModStep(i: nat, k: nat)
    requires 0 < k <= i
    ensures (i - k) % k == i % k
  {
    var q, r := (i - k) / k, (i - k) % k;
    assert i == k * (q + 1) + r;
    ModUnique(i, k, q + 1, r);
  }

  /** The remainder is the only `r` in `[0, k)` with `i == k * q + r`. */
  lemma ModUnique(i: int, k: int, q: int, r: int)
    requires k > 0 && 0 <= r < k && i == k * q + r
    ensures i % k == r
  {
    var q', r' := i / k, i % k;
    assert k * q - k * q' == r' - r;
    if q > q' {
      assert k * (q - q') == k * q - k * q';
      MulAtLeast(k, q - q');
    } else if q < q' {
      assert k * (q' - q) == k * q' - k * q;
      MulAtLeast(k, q' - q);
    }
  }

  /** A positive multiple of `k` is at least `k`. */
  lemma {:induction false} MulAtLeast(k: nat, d: nat)
    requires d > 0
    ensures k * d >= k
  {
    if d > 1 {
      MulAtLeast(k, d - 1);
      assert k * d == k * (d - 1) + k;
    }
  }

  /** The variant separator inside a headline template. */
  const VariantSeparator: char := ';'

  function IsNonEmpty(s: string): bool
  {
    s != ""
  }

  /** `pieces.map(v => v.trim()).filter(Boolean)`: the trimmed pieces, in
      order, without the empty ones. */
  function Phrasings(pieces: seq<string>): (vs: seq<string>)
    ensures |vs| <= |pieces|
  {
    if pieces == [] then []
    else
      var v := Trim(pieces[0]);
      (if v != "" then [v] else []) + Phrasings(pieces[1..])
  }

  /** Every phrasing is non-empty and trimmed. */
  lemma {:induction false} PhrasingsTrimmed(pieces: seq<string>)
    ensures forall v :: v in Phrasings(pieces) ==> v != "" && IsTrimmed(v)
  {
    if pieces != [] {
      PhrasingsTrimmed(pieces[1..]);
    }
  }

  /** A character no piece contains is in no phrasing. */
  lemma {:induction false} PhrasingsExclude(pieces: seq<string>, c: char)
    requires forall p :: p in pieces ==> c !in p
    ensures forall v :: v in Phrasings(pieces) ==> c !in v
  {
    if pieces != [] {
      assert forall p :: p in pieces[1..] ==> p in pieces;
      PhrasingsExclude(pieces[1..], c);
      TrimExcludes(pieces[0], c);
    }
  }

  /** The phrasings of a template:
      `text.split(";").map(v => v.trim()).filter(Boolean)`. */
  function Variants(template: string): seq<string>
  {
    Phrasings(Split(template, VariantSeparator))
  }

  /** A template has at most one phrasing more than it has separators, and
      every phrasing is non-empty, trimmed and separator-free. */
  lemma VariantsShape(template: string)
    ensures |Variants(template)| <= Count(template, VariantSeparator) + 1
    ensures forall v :: v in Variants(template) ==>
              v != "" && IsTrimmed(v) && VariantSeparator !in v
  {
    PhrasingsTrimmed(Split(template, VariantSeparator));
    PhrasingsExclude(Split(template, VariantSeparator), VariantSeparator);
  }

  /** The first piece contributes its trim, unless that is empty. */
  lemma PhrasingsCons(piece: string, rest: seq<string>)
    ensures Phrasings([piece] + rest)
            == (if Trim(piece) != "" then [Trim(piece)] else []) + Phrasings(rest)
  {
    assert ([piece] + rest)[1..] == rest;
  }

  /** The fused loop is the source's two passes: trim every piece, then
      keep the non-empty ones. */
  lemma {:induction false} PhrasingsTrimThenFilter(pieces: seq<string>)
    ensures Phrasings(pieces) == Filter(IsNonEmpty, Map(Trim, pieces))
  {
    if pieces != [] {
      PhrasingsTrimThenFilter(pieces[1..]);
      var trimmed := Map(Trim, pieces);
      assert trimmed == [Trim(pieces[0])] + Map(Trim, pieces[1..]);
      FilterCons(IsNonEmpty, Trim(pieces[0]), Map(Trim, pieces[1..]));
    }
  }

  /** With no blank piece, the fused trim-and-filter keeps one phrasing per piece. */
  lemma {:induction false} PhrasingsKeepAll(pieces: seq<string>)
    requires forall p :: p in pieces ==> !IsBlank(p)
    ensures Phrasings(pieces) == Map(Trim, pieces)
  {
    if pieces != [] {
      assert pieces[0] in pieces;
      assert forall p :: p in pieces[1..] ==> p in pieces;
      PhrasingsKeepAll(pieces[1..]);
    }
  }

  /** No phrasing survives exactly when every piece is blank. */
  lemma {:induction false} PhrasingsEmpty(pieces: seq<string>)
    ensures Phrasings(pieces) == [] <==> forall p :: p in pieces ==> IsBlank(p)
  {
    if pieces != [] {
      PhrasingsEmpty(pieces[1..]);
      assert forall p :: p in pieces <==> p == pieces[0] || p in pieces[1..];
    }
  }

  /** The phrasing of `template` used by ad number `adIndex`:
      `variants[adIndex % variants.length] || ""`. */
  function Resolve(template: string, adIndex: nat): string
  {
    var vs := Variants(template);
    if |vs| == 0 then "" else vs[Mod(adIndex, |vs|)]
  }

  /** The resolved text is "" exactly when the template has no phrasing;
      otherwise it is one of the phrasings, so it is trimmed and free of
      separators. */
  lemma ResolveShape(template: string, adIndex: nat)
    ensures Resolve(template, adIndex) == "" <==> Variants(template) == []
    ensures Resolve(template, adIndex) != "" ==> Resolve(template, adIndex) in Variants(template)
    ensures IsTrimmed(Resolve(template, adIndex)) && VariantSeparator !in Resolve(template, adIndex)
  {
    VariantsShape(template);
    var vs := Variants(template);
    if |vs| != 0 {
      assert vs[Mod(adIndex, |vs|)] in vs;
    }
  }

  /** Every template rotates with period equal to its number of phrasings. */
  lemma ResolvePeriodic(template: string, adIndex: nat)
    ensures Resolve(template, adIndex + |Variants(template)|) == Resolve(template, adIndex)
  {
  }

  /** A template with no ";" is the same (trimmed) text for every ad. */
  lemma ResolveWithoutSeparator(template: string, adIndex: nat)
    requires VariantSeparator !in template
    ensures Resolve(template, adIndex) == Trim(template)
  {
    SplitNoSep(template, VariantSeparator);
    assert [template] == [template] + [];
    PhrasingsCons(template, []);
    assert Variants(template) == if Trim(template) != "" then [Trim(template)] else [];
  }

  /** A template resolves to "" exactly when all its segments are blank
      (for instance "" or "  ;  "). */
  lemma ResolveEmptyIffBlank(template: string, adIndex: nat)
    ensures Resolve(template, adIndex) == "" <==>
              forall p :: p in Split(template, VariantSeparator) ==> IsBlank(p)
  {
    ResolveShape(template, adIndex);
    PhrasingsEmpty(Split(template, VariantSeparator));
  }

  /** Two blank segments leave nothing to resolve. */
  lemma ResolveBlankSegments(first: string, second: string, adIndex: nat)
    requires VariantSeparator !in first && IsBlank(first) && IsBlank(second)
    ensures Resolve(first + [VariantSeparator] + second, adIndex) == ""
  {
    var t := first + [VariantSeparator] + second;
    SplitAtSep(first, VariantSeparator, second);
    forall i | 0 <= i < |second| ensures second[i] != VariantSeparator {
      assert IsJsWhitespace(second[i]);
    }
    SplitNoSep(second, VariantSeparator);
    ResolveEmptyIffBlank(t, adIndex);
  }

  /** One headline slot: the leading `15 - C` slots cycle through the bank
      headlines (or are "" when there are none); the trailing ones take the
      custom headlines. */
  function HeadlineSlot(bank: seq<string>, custom: seq<string>, i: nat): string
    requires i < MaxHeadlines
  {
    if i < MaxHeadlines - |custom| then
      if |bank| == 0 then "" else bank[Mod(i, |bank|)]
    else
      custom[Mod(i - (MaxHeadlines - |custom|), |custom|)]
  }

  /** The 15-slot headline array of one ad. */
  function FillHeadlines(bank: seq<string>, custom: seq<string>): (slots: seq<string>)
    ensures |slots| == MaxHeadlines
    ensures forall i :: 0 <= i < MaxHeadlines ==> slots[i] == HeadlineSlot(bank, custom, i)
  {
    seq(MaxHeadlines, i requires 0 <= i < MaxHeadlines => HeadlineSlot(bank, custom, i))
  }

  /** Slot placement with at most 15 custom headlines: the customs occupy the
      last C slots in list order, and the slots before them cycle through the
      bank headlines (the first B of them are the bank headlines themselves
      when they fit). */
  lemma FillHeadlinesFewCustom(bank: seq<string>, custom: seq<string>)
    requires |custom| <= MaxHeadlines
    ensures forall j :: 0 <= j < |custom| ==>
              FillHeadlines(bank, custom)[MaxHeadlines - |custom| + j] == custom[j]
    ensures forall i :: 0 <= i < MaxHeadlines - |custom| ==>
              FillHeadlines(bank, custom)[i] == if bank == [] then "" else bank[Mod(i, |bank|)]
    ensures forall j :: 0 <= j < |bank| && j < MaxHeadlines - |custom| ==>
              FillHeadlines(bank, custom)[j] == bank[j]
    ensures forall h :: h in custom ==> h in FillHeadlines(bank, custom)
  {
    var slots := FillHeadlines(bank, custom);
    forall j | 0 <= j < |custom|
      ensures slots[MaxHeadlines - |custom| + j] == custom[j]
    {
    }
    forall j | 0 <= j < |bank| && j < MaxHeadlines - |custom|
      ensures slots[j] == bank[j]
    {
    }
    forall h | h in custom ensures h in slots {
      var j :| 0 <= j < |custom| && custom[j] == h;
      assert slots[MaxHeadlines - |custom| + j] == h;
    }
  }

  /** With more than 15 custom headlines no bank headline appears and the
      slots hold the last 15 custom headlines in order. */
  lemma FillHeadlinesManyCustom(bank: seq<string>, custom: seq<string>)
    requires |custom| > MaxHeadlines
    ensures forall i :: 0 <= i < MaxHeadlines ==>
              FillHeadlines(bank, custom)[i] == custom[i + |custom| - MaxHeadlines]
    ensures FillHeadlines(bank, custom) == custom[|custom| - MaxHeadlines..]
  {
    var slots := FillHeadlines(bank, custom);
    forall i | 0 <= i < MaxHeadlines
      ensures slots[i] == custom[i + |custom| - MaxHeadlines]
    {
    }
  }

  /** With no bank and no custom headline every slot is "". */
  lemma FillHeadlinesNothing()
    ensures FillHeadlines([], []) == seq(MaxHeadlines, _ => "")
  {
  }

  /** Every slot holds a bank headline, a custom headline or "". */
  lemma FillHeadlinesSources(bank: seq<string>, custom: seq<string>, i: nat)
    requires i < MaxHeadlines
    ensures FillHeadlines(bank, custom)[i] in bank + custom + [""]
  {
    var slots := FillHeadlines(bank, custom);
    if i < MaxHeadlines - |custom| {
      if |bank| > 0 {
        assert slots[i] == (bank + custom + [""])[Mod(i, |bank|)];
      }
    } else {
      var j := Mod(i - (MaxHeadlines - |custom|), |custom|);
      assert slots[i] == (bank + custom + [""])[|bank| + j];
    }
  }

  /** The bank items in `Object.values(banks)` order, each bank's items in order. */
  function FlatBankItems(banks: Banks): (items: seq<HeadlineItem>)
    ensures items == banks.benefit + banks.offer + banks.feature + banks.trust + banks.cta + banks.utility
  {
    FlattenSix(banks.benefit, banks.offer, banks.feature, banks.trust, banks.cta, banks.utility);
    Flatten(banks.Values())
  }

  /** Step 1: every bank item resolved for this ad, in category and item order. */
  function BankHeadlines(banks: Banks, adIndex: nat): (hs: seq<string>)
    ensures |hs| == |FlatBankItems(banks)|
    ensures forall j :: 0 <= j < |hs| ==> hs[j] == Resolve(FlatBankItems(banks)[j].text, adIndex)
  {
    Map((item: HeadlineItem) => Resolve(item.text, adIndex), FlatBankItems(banks))
  }

  /** Step 2: the group's custom headlines resolved for this ad, in list order. */
  function CustomHeadlines(group: AdGroupConfig, adIndex: nat): (hs: seq<string>)
    ensures |hs| == |group.customHeadlines|
    ensures forall j :: 0 <= j < |hs| ==> hs[j] == Resolve(group.customHeadlines[j], adIndex)
  {
    Map((t: string) => Resolve(t, adIndex), group.customHeadlines)
  }

  /** Step 4: the four campaign descriptions with the empty ones dropped. */
  function Descriptions(campaign: CampaignConfig): (ds: seq<string>)
    ensures |ds| <= 4
    ensures forall d :: d in ds ==> d != ""
  {
    FilterMembers(IsNonEmpty, [campaign.description1, campaign.description2,
                               campaign.description3, campaign.description4]);
    Filter(IsNonEmpty, [campaign.description1, campaign.description2,
                        campaign.description3, campaign.description4])
  }

  /** A description field as it survives the filter. */
  function Kept(d: string): seq<string>
  {
    if d != "" then [d] else []
  }

  /** The descriptions are the non-empty fields in field order, unpadded. */
  lemma DescriptionsInOrder(campaign: CampaignConfig)
    ensures Descriptions(campaign) ==
              Kept(campaign.description1) + (Kept(campaign.description2)
              + (Kept(campaign.description3) + Kept(campaign.description4)))
  {
    var d1, d2, d3, d4 := campaign.description1, campaign.description2,
                          campaign.description3, campaign.description4;
    calc {
      Filter(IsNonEmpty, [d1, d2, d3, d4]);
      { assert [d1, d2, d3, d4] == [d1] + [d2, d3, d4]; FilterCons(IsNonEmpty, d1, [d2, d3, d4]); }
      Kept(d1) + Filter(IsNonEmpty, [d2, d3, d4]);
      { assert [d2, d3, d4] == [d2] + [d3, d4]; FilterCons(IsNonEmpty, d2, [d3, d4]); }
      Kept(d1) + (Kept(d2) + Filter(IsNonEmpty, [d3, d4]));
      { assert [d3, d4] == [d3] + [d4]; FilterCons(IsNonEmpty, d3, [d4]); }
      Kept(d1) + (Kept(d2) + (Kept(d3) + Filter(IsNonEmpty, [d4])));
      { assert [d4] == [d4] + []; FilterCons(IsNonEmpty, d4, []); }
      Kept(d1) + (Kept(d2) + (Kept(d3) + (Kept(d4) + Filter<string>(IsNonEmpty, []))));
      { assert Kept(d4) + [] == Kept(d4); }
      Kept(d1) + (Kept(d2) + (Kept(d3) + Kept(d4)));
    }
  }

  /** Two leading descriptions followed by two empty ones export as exactly
      those two. */
  lemma DescriptionsLeadingTwo(campaign: CampaignConfig)
    requires campaign.description1 != "" && campaign.description2 != ""
    requires campaign.description3 == "" && campaign.description4 == ""
    ensures Descriptions(campaign) == [campaign.description1, campaign.description2]
  {
    DescriptionsInOrder(campaign);
    var d1, d2 := campaign.description1, campaign.description2;
    assert Kept(d1) == [d1] && Kept(d2) == [d2];
    assert Kept(campaign.description3) + Kept(campaign.description4) == [];
    assert [d1] + ([d2] + []) == [d1, d2];
  }

  /** Step 5: `${baseDomain}/${group.finalUrl}`, with no slash normalisation. */
  function FinalUrl(campaign: CampaignConfig, group: AdGroupConfig): (url: string)
    ensures |url| == |campaign.baseDomain| + 1 + |group.finalUrl|
    ensures url[..|campaign.baseDomain|] == campaign.baseDomain
    ensures url[|campaign.baseDomain|] == '/'
    ensures url[|campaign.baseDomain| + 1..] == group.finalUrl
  {
    campaign.baseDomain + "/" + group.finalUrl
  }

  datatype RsaRow = RsaRow(
    campaign: string,
    adGroup: string,
    finalUrl: string,
    path1: string,
    path2: string,
    headlines: seq<string>,
    descriptions: seq<string>)

  /** The row of ad number `adIndex` of `group`. */
  function BuildRow(campaign: CampaignConfig, banks: Banks, group: AdGroupConfig, adIndex: nat): RsaRow
  {
    RsaRow(
      campaign.campaignName,
      group.name,
      FinalUrl(campaign, group),
      OrEmpty(group.path1),
      OrEmpty(group.path2),
      FillHeadlines(BankHeadlines(banks, adIndex), CustomHeadlines(group, adIndex)),
      Descriptions(campaign))
  }

  /** The fixed fields and the shape of every row. */
  lemma BuildRowFields(campaign: CampaignConfig, banks: Banks, group: AdGroupConfig, adIndex: nat)
    ensures var row := BuildRow(campaign, banks, group, adIndex);
      && row.campaign == campaign.campaignName
      && row.adGroup == group.name
      && row.finalUrl == campaign.baseDomain + "/" + group.finalUrl
      && row.path1 == OrEmpty(group.path1) && row.path2 == OrEmpty(group.path2)
      && |row.headlines| == MaxHeadlines
      && |row.descriptions| <= 4
      && row.descriptions == Descriptions(campaign)
  {
  }

  /** The headlines of a row are the 15 slots filled from the resolved bank
      items and the resolved custom headlines. */
  lemma BuildRowHeadlines(campaign: CampaignConfig, banks: Banks, group: AdGroupConfig, adIndex: nat)
    ensures BuildRow(campaign, banks, group, adIndex).headlines
            == FillHeadlines(BankHeadlines(banks, adIndex), CustomHeadlines(group, adIndex))
  {
  }

  /** Where each headline of a row comes from when the group has at most 15
      custom headlines: the resolved customs fill the last slots in list
      order, and the slots before them cycle through the resolved bank items
      (or are "" when the banks are empty). */
  lemma BuildRowHeadlinesFewCustom(campaign: CampaignConfig, banks: Banks, group: AdGroupConfig, adIndex: nat)
    requires |group.customHeadlines| <= MaxHeadlines
    ensures var hs := BuildRow(campaign, banks, group, adIndex).headlines;
            var bank := BankHeadlines(banks, adIndex);
            var custom := CustomHeadlines(group, adIndex);
      && hs[MaxHeadlines - |custom|..] == custom
      && forall i :: 0 <= i < MaxHeadlines - |custom| ==>
           hs[i] == if bank == [] then "" else bank[Mod(i, |bank|)]
  {
    BuildRowHeadlines(campaign, banks, group, adIndex);
    SlotsFewCustom(BuildRow(campaign, banks, group, adIndex).headlines,
                   BankHeadlines(banks, adIndex), CustomHeadlines(group, adIndex));
  }

  /** The slot placement of `FillHeadlinesFewCustom`, for a named slot array. */
  lemma SlotsFewCustom(hs: seq<string>, bank: seq<string>, custom: seq<string>)
    requires hs == FillHeadlines(bank, custom) && |custom| <= MaxHeadlines
    ensures hs[MaxHeadlines - |custom|..] == custom
    ensures forall i :: 0 <= i < MaxHeadlines - |custom| ==>
              hs[i] == if bank == [] then "" else bank[Mod(i, |bank|)]
  {
    FillHeadlinesFewCustom(bank, custom);
    assert hs[MaxHeadlines - |custom|..] == custom;
  }

  /** With more than 15 custom headlines every slot is a resolved custom
      headline: the last 15 of them, in order. */
  lemma BuildRowHeadlinesManyCustom(campaign: CampaignConfig, banks: Banks, group: AdGroupConfig, adIndex: nat)
    requires |group.customHeadlines| > MaxHeadlines
    ensures var custom := CustomHeadlines(group, adIndex);
            BuildRow(campaign, banks, group, adIndex).headlines == custom[|custom| - MaxHeadlines..]
  {
    BuildRowHeadlines(campaign, banks, group, adIndex);
    SlotsManyCustom(BuildRow(campaign, banks, group, adIndex).headlines,
                    BankHeadlines(banks, adIndex), CustomHeadlines(group, adIndex));
  }

  /** The slot placement of `FillHeadlinesManyCustom`, for a named slot array. */
  lemma SlotsManyCustom(hs: seq<string>, bank: seq<string>, custom: seq<string>)
    requires hs == FillHeadlines(bank, custom) && |custom| > MaxHeadlines
    ensures hs == custom[|custom| - MaxHeadlines..]
  {
    FillHeadlinesManyCustom(bank, custom);
  }

  /** With empty banks and no custom headline, all 15 slots are "". */
  lemma BuildRowNoHeadlines(campaign: CampaignConfig, group: AdGroupConfig, adIndex: nat)
    requires group.customHeadlines == []
    ensures BuildRow(campaign, EmptyBanks, group, adIndex).headlines == seq(MaxHeadlines, _ => "")
  {
    assert FlatBankItems(EmptyBanks) == [];
    FillHeadlinesNothing();
  }

  /** The rows of one group: `Array.from({ length: adsCount }, (_, a) => f(group, a))`. */
  function AdRows<R>(group: AdGroupConfig, f: (AdGroupConfig, nat) -> R): (rows: seq<R>)
    ensures |rows| == group.adsCount
    ensures forall a :: 0 <= a < group.adsCount ==> rows[a] == f(group, a)
  {
    seq(group.adsCount, a requires 0 <= a < group.adsCount => f(group, a))
  }

  /** `groups.flatMap(g => AdRows(g, f))`: one row per (group, ad index),
      groups in input order, ad indices ascending. */
  function Rows<R>(groups: seq<AdGroupConfig>, f: (AdGroupConfig, nat) -> R): seq<R>
  {
    if groups == [] then [] else AdRows(groups[0], f) + Rows(groups[1..], f)
  }

  /** The total number of ads over the groups. */
  function TotalAds(groups: seq<AdGroupConfig>): nat
  {
    if groups == [] then 0 else groups[0].adsCount + TotalAds(groups[1..])
  }

  lemma {:induction false} RowsLength<R>(groups: seq<AdGroupConfig>, f: (AdGroupConfig, nat) -> R)
    ensures |Rows(groups, f)| == TotalAds(groups)
  {
    if groups != [] {
      RowsLength(groups[1..], f);
    }
  }

  /** Ad `a` of group `g` sits at position (ads of the groups before `g`) + `a`. */
  lemma {:induction false} RowsAt<R>(groups: seq<AdGroupConfig>, f: (AdGroupConfig, nat) -> R, g: nat, a: nat)
    requires g < |groups| && a < groups[g].adsCount
    ensures TotalAds(groups[..g]) + a < |Rows(groups, f)|
    ensures Rows(groups, f)[TotalAds(groups[..g]) + a] == f(groups[g], a)
  {
    RowsLength(groups, f);
    if g == 0 {
      assert groups[..0] == [];
    } else {
      RowsAt(groups[1..], f, g - 1, a);
      assert groups[1..][..g - 1] == groups[..g][1..];
      assert groups[1..][g - 1] == groups[g];
    }
  }

  /** Every row is some ad of some group. */
  lemma {:induction false} RowsOrigin<R>(groups: seq<AdGroupConfig>, f: (AdGroupConfig, nat) -> R, k: nat)
    returns (g: nat, a: nat)
    requires k < |Rows(groups, f)|
    ensures g < |groups| && a < groups[g].adsCount
    ensures k == TotalAds(groups[..g]) + a
    ensures Rows(groups, f)[k] == f(groups[g], a)
  {
    var first := AdRows(groups[0], f);
    if k < |first| {
      g, a := 0, k;
      assert groups[..0] == [];
    } else {
      var g', a' := RowsOrigin(groups[1..], f, k - |first|);
      g, a := g' + 1, a';
      assert groups[..g][1..] == groups[1..][..g'];
    }
  }

  /** Appending a group appends exactly its rows; a group with no ads adds nothing. */
  lemma {:induction false} RowsAppend<R>(groups: seq<AdGroupConfig>, group: AdGroupConfig, f: (AdGroupConfig, nat) -> R)
    ensures Rows(groups + [group], f) == Rows(groups, f) + AdRows(group, f)
  {
    if groups == [] {
      assert [group][1..] == [];
    } else {
      assert (groups + [group])[1..] == groups[1..] + [group];
      RowsAppend(groups[1..], group, f);
    }
  }

  function RowBuilder(campaign: CampaignConfig, banks: Banks): (AdGroupConfig, nat) -> RsaRow
  {
    (group: AdGroupConfig, adIndex: nat) => BuildRow(campaign, banks, group, adIndex)
  }

  /** `buildRSATable`. */
  function BuildRsaTable(campaign: CampaignConfig, groups: seq<AdGroupConfig>, banks: Banks): seq<RsaRow>
  {
    Rows(groups, RowBuilder(campaign, banks))
  }

  /** The table has one row per ad of every group; no groups, no rows. */
  lemma TableLength(campaign: CampaignConfig, groups: seq<AdGroupConfig>, banks: Banks)
    ensures |BuildRsaTable(campaign, groups, banks)| == TotalAds(groups)
    ensures groups == [] ==> BuildRsaTable(campaign, groups, banks) == []
  {
    RowsLength(groups, RowBuilder(campaign, banks));
  }

  /** Ad `a` of group `g` is the row after all the ads of the groups before
      `g` and the first `a` ads of `g`. */
  lemma TableRowAt(campaign: CampaignConfig, groups: seq<AdGroupConfig>, banks: Banks, g: nat, a: nat)
    requires g < |groups| && a < groups[g].adsCount
    ensures TotalAds(groups[..g]) + a < |BuildRsaTable(campaign, groups, banks)|
    ensures BuildRsaTable(campaign, groups, banks)[TotalAds(groups[..g]) + a]
            == BuildRow(campaign, banks, groups[g], a)
  {
    var f := RowBuilder(campaign, banks);
    RowsAt(groups, f, g, a);
    assert f(groups[g], a) == BuildRow(campaign, banks, groups[g], a);
  }

  /** Every row has 15 headlines and the same campaign-wide descriptions. */
  lemma TableRowsUniform(campaign: CampaignConfig, groups: seq<AdGroupConfig>, banks: Banks, k: nat)
    requires k < |BuildRsaTable(campaign, groups, banks)|
    ensures |BuildRsaTable(campaign, groups, banks)[k].headlines| == MaxHeadlines
    ensures BuildRsaTable(campaign, groups, banks)[k].descriptions == Descriptions(campaign)
    ensures BuildRsaTable(campaign, groups, banks)[k].campaign == campaign.campaignName
  {
    var g, a := RowsOrigin(groups, RowBuilder(campaign, banks), k);
  }

  /** Appending a group appends its rows; a group with `adsCount = 0` adds none. */
  lemma TableAppendGroup(campaign: CampaignConfig, groups: seq<AdGroupConfig>, banks: Banks, group: AdGroupConfig)
    ensures BuildRsaTable(campaign, groups + [group], banks)
            == BuildRsaTable(campaign, groups, banks) + AdRows(group, RowBuilder(campaign, banks))
    ensures group.adsCount == 0 ==>
              BuildRsaTable(campaign, groups + [group], banks) == BuildRsaTable(campaign, groups, banks)
  {
    RowsAppend(groups, group, RowBuilder(campaign, banks));
  }

  /** A template of two separator-free segments with visible text
      alternates between their trimmed forms: even ads get the first, odd
      ads the second. */
  lemma ResolveTwoSegments(first: string, second: string, adIndex: nat)
    requires VariantSeparator !in first && VariantSeparator !in second
    requires !IsBlank(first) && !IsBlank(second)
    ensures Resolve(first + [VariantSeparator] + second, adIndex)
            == if Mod(adIndex, 2) == 0 then Trim(first) else Trim(second)
  {
    var t := first + [VariantSeparator] + second;
    VariantsTwoSegments(first, second);
    var vs := Variants(t);
    assert Resolve(t, adIndex) == vs[Mod(adIndex, 2)];
  }

  /** The two segments, trimmed, are the template's two phrasings. */
  lemma VariantsTwoSegments(first: string, second: string)
    requires VariantSeparator !in first && VariantSeparator !in second
    requires !IsBlank(first) && !IsBlank(second)
    ensures Variants(first + [VariantSeparator] + second) == [Trim(first), Trim(second)]
  {
    SplitAtSep(first, VariantSeparator, second);
    SplitNoSep(second, VariantSeparator);
    PhrasingsTwo(first, second);
    var a, b := Trim(first), Trim(second);
    assert [a] + [b] == [a, b];
  }

  /** Two pieces whose trims are non-empty give those two trims. */
  lemma PhrasingsTwo(first: string, second: string)
    requires Trim(first) != "" && Trim(second) != ""
    ensures Phrasings([first] + [second]) == [Trim(first)] + [Trim(second)]
  {
    PhrasingsOne(second);
    PhrasingsCons(first, [second]);
  }

  /** A single piece whose trim is non-empty gives that trim. */
  lemma PhrasingsOne(piece: string)
    requires Trim(piece) != ""
    ensures Phrasings([piece]) == [Trim(piece)]
  {
    PhrasingsCons(piece, []);
    assert [piece] + [] == [piece];
  }

  /** Two phrasings with no surrounding whitespace alternate as written. */
  lemma ResolveTwoPhrasings(first: string, second: string, adIndex: nat)
    requires VariantSeparator !in first && VariantSeparator !in second
    requires first != "" && IsTrimmed(first) && second != "" && IsTrimmed(second)
    ensures Resolve(first + [VariantSeparator] + second, adIndex)
            == if Mod(adIndex, 2) == 0 then first else second
  {
    TrimOfTrimmed(first);
    TrimOfTrimmed(second);
    ResolveTwoSegments(first, second, adIndex);
  }

  /** "A;B" alternates between "A" and "B". */
  lemma ResolveAlternates()
    ensures Resolve("A;B", 0) == "A"
    ensures Resolve("A;B", 1) == "B"
    ensures Resolve("A;B", 2) == "A"
  {
    assert "A" + [VariantSeparator] + "B" == "A;B";
    ResolveTwoPhrasings("A", "B", 0);
    ResolveTwoPhrasings("A", "B", 1);
    ResolveTwoPhrasings("A", "B", 2);
  }

  /** A space before a trimmed, non-empty string is trimmed away. */
  lemma TrimLeadingSpace(s: string)
    requires s != "" && IsTrimmed(s)
    ensures Trim([' '] + s) == s
  {
    assert ([' '] + s)[1..] == s;
  }

  /** The usual way of writing two phrasings, "first; second", alternates
      between them: the space after the separator is trimmed away. */
  lemma ResolveTwoPhrasingsSpaced(first: string, second: string, adIndex: nat)
    requires VariantSeparator !in first && VariantSeparator !in second
    requires first != "" && IsTrimmed(first) && second != "" && IsTrimmed(second)
    ensures Resolve(first + [VariantSeparator, ' '] + second, adIndex)
            == if Mod(adIndex, 2) == 0 then first else second
  {
    assert first + [VariantSeparator, ' '] + second == first + [VariantSeparator] + ([' '] + second);
    TrimOfTrimmed(first);
    TrimLeadingSpace(second);
    ResolveTwoSegments(first, [' '] + second, adIndex);
  }

  /** "Low Price; Best Price" alternates between its two trimmed phrasings. */
  lemma ResolveLowBest()
    ensures Resolve("Low Price; Best Price", 0) == "Low Price"
    ensures Resolve("Low Price; Best Price", 1) == "Best Price"
  {
    assert "Low Price" + [VariantSeparator, ' '] + "Best Price" == "Low Price; Best Price";
    ResolveTwoPhrasingsSpaced("Low Price", "Best Price", 0);
    ResolveTwoPhrasingsSpaced("Low Price", "Best Price", 1);
  }

  /** The worked example, for any two phrasings: a campaign with two
      descriptions followed by two empty ones, empty banks, and one group with
      two ads whose only custom template is "first; second". Ad 1 ends with
      the first phrasing, ad 2 with the second; both carry the two
      descriptions and the domain-prefixed URL. */
  lemma TwoAdsAlternate(campaign: CampaignConfig, group: AdGroupConfig, first: string, second: string)
    requires VariantSeparator !in first && VariantSeparator !in second
    requires first != "" && IsTrimmed(first) && second != "" && IsTrimmed(second)
    requires group.adsCount == 2 && group.customHeadlines == [first + [VariantSeparator, ' '] + second]
    requires campaign.description1 != "" && campaign.description2 != ""
    requires campaign.description3 == "" && campaign.description4 == ""
    ensures var rows := BuildRsaTable(campaign, [group], EmptyBanks);
      && |rows| == 2
      && |rows[0].headlines| == MaxHeadlines && |rows[1].headlines| == MaxHeadlines
      && rows[0].headlines[14] == first
      && rows[1].headlines[14] == second
      && rows[0].descriptions == [campaign.description1, campaign.description2]
      && rows[1].descriptions == [campaign.description1, campaign.description2]
      && rows[0].finalUrl == campaign.baseDomain + "/" + group.finalUrl
      && rows[1].finalUrl == campaign.baseDomain + "/" + group.finalUrl
  {
    SingleGroupTable(campaign, group, EmptyBanks);
    ExampleAd(campaign, group, first, second, 0);
    ExampleAd(campaign, group, first, second, 1);
  }

  /** The table of a single group is that group's ads in order. */
  lemma SingleGroupTable(campaign: CampaignConfig, group: AdGroupConfig, banks: Banks)
    ensures var rows := BuildRsaTable(campaign, [group], banks);
      && |rows| == group.adsCount
      && forall a :: 0 <= a < group.adsCount ==> rows[a] == BuildRow(campaign, banks, group, a)
  {
    var f := RowBuilder(campaign, banks);
    assert Rows([group], f) == AdRows(group, f) + Rows([group][1..], f);
    assert Rows([group][1..], f) == [];
  }

  /** One ad of the worked example. */
  lemma ExampleAd(campaign: CampaignConfig, group: AdGroupConfig, first: string, second: string, adIndex: nat)
    requires VariantSeparator !in first && VariantSeparator !in second
    requires first != "" && IsTrimmed(first) && second != "" && IsTrimmed(second)
    requires group.customHeadlines == [first + [VariantSeparator, ' '] + second]
    requires campaign.description1 != "" && campaign.description2 != ""
    requires campaign.description3 == "" && campaign.description4 == ""
    ensures var row := BuildRow(campaign, EmptyBanks, group, adIndex);
      && |row.headlines| == MaxHeadlines
      && row.headlines[14] == (if Mod(adIndex, 2) == 0 then first else second)
      && row.descriptions == [campaign.description1, campaign.description2]
      && row.finalUrl == campaign.baseDomain + "/" + group.finalUrl
  {
    BuildRowFields(campaign, EmptyBanks, group, adIndex);
    LastSlotAlternates(campaign, group, first, second, adIndex);
    DescriptionsLeadingTwo(campaign);
  }

  /** With empty banks and the single custom template "first; second",
      the last of the 15 slots alternates between the two phrasings. */
  lemma LastSlotAlternates(campaign: CampaignConfig, group: AdGroupConfig, first: string, second: string, adIndex: nat)
    requires VariantSeparator !in first && VariantSeparator !in second
    requires first != "" && IsTrimmed(first) && second != "" && IsTrimmed(second)
    requires group.customHeadlines == [first + [VariantSeparator, ' '] + second]
    ensures var hs := BuildRow(campaign, EmptyBanks, group, adIndex).headlines;
      |hs| == MaxHeadlines && hs[14] == if Mod(adIndex, 2) == 0 then first else second
  {
    var hs := BuildRow(campaign, EmptyBanks, group, adIndex).headlines;
    BuildRowHeadlinesFewCustom(campaign, EmptyBanks, group, adIndex);
    ResolveTwoPhrasingsSpaced(first, second, adIndex);
    assert hs[14] == CustomHeadlines(group, adIndex)[0];
  }

  /** The worked example itself: "Low Price; Best Price" with descriptions
      "D1", "D2", "", "". */
  lemma WorkedExample(campaign: CampaignConfig, group: AdGroupConfig)
    requires campaign.description1 == "D1" && campaign.description2 == "D2"
    requires campaign.description3 == "" && campaign.description4 == ""
    requires group.adsCount == 2 && group.customHeadlines == ["Low Price; Best Price"]
    ensures var rows := BuildRsaTable(campaign, [group], EmptyBanks);
      && |rows| == 2
      && |rows[0].headlines| == MaxHeadlines && |rows[1].headlines| == MaxHeadlines
      && rows[0].headlines[14] == "Low Price"
      && rows[1].headlines[14] == "Best Price"
      && rows[0].descriptions == ["D1", "D2"] && rows[1].descriptions == ["D1", "D2"]
  {
    assert "Low Price" + [VariantSeparator, ' '] + "Best Price" == "Low Price; Best Price";
    TwoAdsAlternate(campaign, group, "Low Price", "Best Price");
  }
}
