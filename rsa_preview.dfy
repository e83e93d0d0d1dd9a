/** The on-screen preview of the RSA builder (src/components/rsa/PreviewTable.tsx).
    It enumerates the same (group, ad index) pairs as the export but builds
    each row differently: its resolver keeps blank phrasings, the raw custom
    headlines come first and the list is cut at 15 instead of being padded,
    the campaign column is `campaign.name`, the ad-group column carries an
    "- Ad n" label, and the descriptions come from a field the campaign does
    not have. */
module RsaPreview {
  import opened Seqs
  import opened Text
  import opened RsaStore
  import opened RsaTable

  /** `text.split(";").map(v => v.trim())`: every piece trimmed, blank ones kept. */
  function PreviewVariants(template: string): (vs: seq<string>)
    ensures |vs| == Count(template, VariantSeparator) + 1
    ensures forall i :: 0 <= i < |vs| ==> vs[i] == Trim(Split(template, VariantSeparator)[i])
  {
    Map(Trim, Split(template, VariantSeparator))
  }

  /** `variants[adIndex % variants.length] || ""`. The split always yields at
      least one piece, so the index is always in range; the `|| ""` only
      turns an empty piece into the same empty string. */
  function PreviewResolve(template: string, adIndex: nat): string
  {
    var vs := PreviewVariants(template);
    vs[Mod(adIndex, |vs|)]
  }

  /** The preview picks the piece at the rotated position, trimmed. */
  lemma PreviewResolvePicksPiece(template: string, adIndex: nat)
    ensures var pieces := Split(template, VariantSeparator);
            PreviewResolve(template, adIndex) == Trim(pieces[Mod(adIndex, |pieces|)])
  {
  }

  /** When no piece of the template is blank the preview and the export pick
      the same phrasing for every ad. */
  lemma PreviewResolveAgrees(template: string, adIndex: nat)
    requires forall p :: p in Split(template, VariantSeparator) ==> !IsBlank(p)
    ensures PreviewResolve(template, adIndex) == Resolve(template, adIndex)
  {
    var pieces := Split(template, VariantSeparator);
    PhrasingsKeepAll(pieces);
    assert Variants(template) == PreviewVariants(template);
  }

  /** A trailing separator ("first;") is where the two resolvers part: the
      preview shows "" for every odd ad, the export repeats `first`. */
  lemma TrailingSeparatorDiverges(first: string, adIndex: nat)
    requires VariantSeparator !in first && first != "" && IsTrimmed(first)
    ensures PreviewResolve(first + [VariantSeparator], adIndex)
            == if Mod(adIndex, 2) == 0 then first else ""
    ensures Resolve(first + [VariantSeparator], adIndex) == first
  {
    assert first + [VariantSeparator] == first + [VariantSeparator] + "";
    BlankSecondSegment(first, "", adIndex);
  }

  /** After a phrasing, a blank last segment is shown as "" at every odd ad
      by the preview and skipped by the export. */
  lemma BlankSecondSegment(first: string, second: string, adIndex: nat)
    requires VariantSeparator !in first && first != "" && IsTrimmed(first)
    requires VariantSeparator !in second && IsBlank(second)
    ensures PreviewResolve(first + [VariantSeparator] + second, adIndex)
            == if Mod(adIndex, 2) == 0 then first else ""
    ensures Resolve(first + [VariantSeparator] + second, adIndex) == first
  {
    var t := first + [VariantSeparator] + second;
    PreviewKeepsBlankSecond(first, second);
    assert PreviewResolve(t, adIndex) == [first, ""][Mod(adIndex, 2)];
    ExportSkipsBlankSecond(first, second);
    ResolveSinglePhrasing(t, first, adIndex);
  }

  lemma PreviewKeepsBlankSecond(first: string, second: string)
    requires VariantSeparator !in first && IsTrimmed(first)
    requires VariantSeparator !in second && IsBlank(second)
    ensures PreviewVariants(first + [VariantSeparator] + second) == [first, ""]
  {
    var t := first + [VariantSeparator] + second;
    SplitAtSep(first, VariantSeparator, second);
    SplitNoSep(second, VariantSeparator);
    var pieces := Split(t, VariantSeparator);
    assert pieces == [first, second];
    var vs := PreviewVariants(t);
    assert |vs| == 2;
    assert vs[0] == Trim(pieces[0]) == first by { TrimOfTrimmed(first); }
    assert vs[1] == Trim(pieces[1]) == "";
  }

  lemma ExportSkipsBlankSecond(first: string, second: string)
    requires VariantSeparator !in first && first != "" && IsTrimmed(first)
    requires VariantSeparator !in second && IsBlank(second)
    ensures Variants(first + [VariantSeparator] + second) == [first]
  {
    SplitAtSep(first, VariantSeparator, second);
    SplitNoSep(second, VariantSeparator);
    TrimOfTrimmed(first);
    PhrasingsCons(first, [second]);
    PhrasingsCons(second, []);
  }

  /** A template with a single phrasing shows it at every ad. */
  lemma ResolveSinglePhrasing(template: string, phrasing: string, adIndex: nat)
    requires Variants(template) == [phrasing]
    ensures Resolve(template, adIndex) == phrasing
  {
    var m := Mod(adIndex, 1);
    assert m == 0;
  }

  /** Every bank item resolved with the preview resolver, in category and
      item order. */
  function PreviewBankHeadlines(banks: Banks, adIndex: nat): (hs: seq<string>)
    ensures |hs| == |FlatBankItems(banks)|
    ensures forall j :: 0 <= j < |hs| ==> hs[j] == PreviewResolve(FlatBankItems(banks)[j].text, adIndex)
  {
    Map((item: HeadlineItem) => PreviewResolve(item.text, adIndex), FlatBankItems(banks))
  }

  /** `[...group.customHeadlines, ...bankHeadlines].slice(0, 15)`: the raw
      custom headlines first, then the resolved bank headlines, cut at 15. */
  function PreviewHeadlines(custom: seq<string>, bank: seq<string>): seq<string>
  {
    var all := custom + bank;
    if |all| <= MaxHeadlines then all else all[..MaxHeadlines]
  }

  /** The preview has at most 15 headlines, exactly as many as there are
      when fewer, and starts with the custom headlines verbatim; the bank
      headlines fill what is left in order. */
  lemma PreviewHeadlinesShape(custom: seq<string>, bank: seq<string>)
    ensures var hs := PreviewHeadlines(custom, bank);
      && |hs| == (if |custom| + |bank| <= MaxHeadlines then |custom| + |bank| else MaxHeadlines)
      && (|custom| <= MaxHeadlines ==> hs[..|custom|] == custom)
      && (|custom| >= MaxHeadlines ==> hs == custom[..MaxHeadlines])
      && forall j :: 0 <= j < |bank| && |custom| + j < MaxHeadlines ==> hs[|custom| + j] == bank[j]
  {
    var all := custom + bank;
    var hs := PreviewHeadlines(custom, bank);
    if |custom| <= MaxHeadlines {
      assert hs[..|custom|] == all[..|custom|];
    }
  }

  /** `(campaign.descriptions || []).slice(0, 4)`: the first four entries of
      a description list, or none when the list is absent. */
  function PreviewDescriptions(listed: Option<seq<string>>): (ds: seq<string>)
    ensures listed.None? ==> ds == []
    ensures listed.Some? ==> ds == if |listed.value| <= 4 then listed.value else listed.value[..4]
  {
    match listed
    case None => []
    case Some(l) => if |l| <= 4 then l else l[..4]
  }

  /** `campaign.descriptions`: CampaignConfig carries four separate
      description fields and no `descriptions` list, so the lookup finds
      nothing. */
  function ListedDescriptions(campaign: CampaignConfig): Option<seq<string>>
  {
    None
  }

  /** `${group.name} - Ad ${adIndex + 1}`: the ads of a group are numbered from 1. */
  function AdLabel(group: AdGroupConfig, adIndex: nat): string
  {
    group.name + " - Ad " + NatToString(adIndex + 1)
  }

  /** Distinct ads of a group get distinct labels. */
  lemma AdLabelInjective(group: AdGroupConfig, a: nat, b: nat)
    requires AdLabel(group, a) == AdLabel(group, b)
    ensures a == b
  {
    var prefix := group.name + " - Ad ";
    assert AdLabel(group, a)[|prefix|..] == NatToString(a + 1);
    assert AdLabel(group, b)[|prefix|..] == NatToString(b + 1);
    NatToStringInjective(a + 1, b + 1);
  }

  /** The preview row of ad number `adIndex` of `group`. */
  function PreviewRow(campaign: CampaignConfig, banks: Banks, group: AdGroupConfig, adIndex: nat): RsaRow
  {
    RsaRow(
      campaign.name,
      AdLabel(group, adIndex),
      FinalUrl(campaign, group),
      OrEmpty(group.path1),
      OrEmpty(group.path2),
      PreviewHeadlines(group.customHeadlines, PreviewBankHeadlines(banks, adIndex)),
      PreviewDescriptions(ListedDescriptions(campaign)))
  }

  /** What a preview row shows, and where it differs from the exported row:
      the campaign column is `name`, not `campaignName`; the ad-group column
      is labelled; the descriptions are always empty. */
  lemma PreviewRowFields(campaign: CampaignConfig, banks: Banks, group: AdGroupConfig, adIndex: nat)
    ensures var row := PreviewRow(campaign, banks, group, adIndex);
            var exported := BuildRow(campaign, banks, group, adIndex);
      && row.campaign == campaign.name
      && row.adGroup == group.name + " - Ad " + NatToString(adIndex + 1)
      && row.finalUrl == exported.finalUrl
      && row.path1 == exported.path1 && row.path2 == exported.path2
      && row.descriptions == []
      && |row.headlines| <= MaxHeadlines
  {
    PreviewHeadlinesShape(group.customHeadlines, PreviewBankHeadlines(banks, adIndex));
  }

  /** The preview lists a group's custom headlines first and as typed, with
      their ";" variants unresolved, where the export resolves them. */
  lemma PreviewCustomHeadlinesRaw(campaign: CampaignConfig, banks: Banks, group: AdGroupConfig, adIndex: nat)
    requires |group.customHeadlines| <= MaxHeadlines
    ensures var hs := PreviewRow(campaign, banks, group, adIndex).headlines;
      && |group.customHeadlines| <= |hs|
      && hs[..|group.customHeadlines|] == group.customHeadlines
  {
    PreviewHeadlinesShape(group.customHeadlines, PreviewBankHeadlines(banks, adIndex));
  }

  /** A campaign with a first description shows it in the export but not in
      the preview. */
  lemma PreviewDropsDescriptions(campaign: CampaignConfig, banks: Banks, group: AdGroupConfig, adIndex: nat)
    requires campaign.description1 != ""
    ensures campaign.description1 in BuildRow(campaign, banks, group, adIndex).descriptions
    ensures PreviewRow(campaign, banks, group, adIndex).descriptions == []
  {
    DescriptionsInOrder(campaign);
    var d1 := campaign.description1;
    var rest := Kept(campaign.description2)
                + (Kept(campaign.description3) + Kept(campaign.description4));
    assert Descriptions(campaign) == [d1] + rest;
    assert Descriptions(campaign)[0] == d1;
  }

  function PreviewRowBuilder(campaign: CampaignConfig, banks: Banks): (AdGroupConfig, nat) -> RsaRow
  {
    (group: AdGroupConfig, adIndex: nat) => PreviewRow(campaign, banks, group, adIndex)
  }

  /** `generatePreview`. */
  function GeneratePreview(campaign: CampaignConfig, groups: seq<AdGroupConfig>, banks: Banks): seq<RsaRow>
  {
    Rows(groups, PreviewRowBuilder(campaign, banks))
  }

  /** The preview lists the same ads as the export, in the same order. */
  lemma PreviewLength(campaign: CampaignConfig, groups: seq<AdGroupConfig>, banks: Banks)
    ensures |GeneratePreview(campaign, groups, banks)| == TotalAds(groups)
    ensures |GeneratePreview(campaign, groups, banks)| == |BuildRsaTable(campaign, groups, banks)|
  {
    RowsLength(groups, PreviewRowBuilder(campaign, banks));
    TableLength(campaign, groups, banks);
  }

  /** Ad `a` of group `g` sits at the same position in the preview as in the
      export, and its preview row is labelled with `a + 1`. */
  lemma PreviewRowAt(campaign: CampaignConfig, groups: seq<AdGroupConfig>, banks: Banks, g: nat, a: nat)
    requires g < |groups| && a < groups[g].adsCount
    ensures TotalAds(groups[..g]) + a < |GeneratePreview(campaign, groups, banks)|
    ensures GeneratePreview(campaign, groups, banks)[TotalAds(groups[..g]) + a]
            == PreviewRow(campaign, banks, groups[g], a)
  {
    var f := PreviewRowBuilder(campaign, banks);
    RowsAt(groups, f, g, a);
    assert f(groups[g], a) == PreviewRow(campaign, banks, groups[g], a);
  }
}
