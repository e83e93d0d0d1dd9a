/** The older preview table (src/components/PreviewTable.tsx). It resolves the
    bank items with the same keep-blank resolver as the RSA preview but
    ignores the groups' custom headlines, and shows a group's final URL
    without the campaign's base domain. */
module LegacyPreview {
  import opened RsaStore
  import opened RsaTable
  import opened RsaPreview

  /** Up to the first 15 resolved bank headlines. */
  function LegacyHeadlines(banks: Banks, adIndex: nat): seq<string>
  {
    PreviewHeadlines([], PreviewBankHeadlines(banks, adIndex))
  }

  /** The legacy row of ad number `adIndex` of `group`. */
  function LegacyRow(campaign: CampaignConfig, banks: Banks, group: AdGroupConfig, adIndex: nat): RsaRow
  {
    RsaRow(
      campaign.name,
      AdLabel(group, adIndex),
      group.finalUrl,
      OrEmpty(group.path1),
      OrEmpty(group.path2),
      LegacyHeadlines(banks, adIndex),
      PreviewDescriptions(ListedDescriptions(campaign)))
  }

  function LegacyRowBuilder(campaign: CampaignConfig, banks: Banks): (AdGroupConfig, nat) -> RsaRow
  {
    (group: AdGroupConfig, adIndex: nat) => LegacyRow(campaign, banks, group, adIndex)
  }

  /** `generatePreview` of the older table. */
  function GenerateLegacyPreview(campaign: CampaignConfig, groups: seq<AdGroupConfig>, banks: Banks): seq<RsaRow>
  {
    Rows(groups, LegacyRowBuilder(campaign, banks))
  }

  /** The legacy headlines are the first resolved bank headlines, at most 15
      of them, in bank order. */
  lemma LegacyHeadlinesShape(banks: Banks, adIndex: nat)
    ensures var bank := PreviewBankHeadlines(banks, adIndex);
            var hs := LegacyHeadlines(banks, adIndex);
      && |hs| == (if |bank| <= MaxHeadlines then |bank| else MaxHeadlines)
      && hs == bank[..|hs|]
  {
    var bank := PreviewBankHeadlines(banks, adIndex);
    assert [] + bank == bank;
  }

  /** The legacy row ignores the group's custom headlines: two groups that
      differ only in them get the same row. */
  lemma LegacyIgnoresCustomHeadlines(campaign: CampaignConfig, banks: Banks, group: AdGroupConfig,
                                     custom: seq<string>, adIndex: nat)
    ensures LegacyRow(campaign, banks, group.(customHeadlines := custom), adIndex)
            == LegacyRow(campaign, banks, group, adIndex)
  {
  }

  /** The legacy row shows the group's own URL where the RSA preview and the
      export prefix the base domain; every other column but the headlines
      matches the RSA preview. */
  lemma LegacyRowFields(campaign: CampaignConfig, banks: Banks, group: AdGroupConfig, adIndex: nat)
    ensures var row := LegacyRow(campaign, banks, group, adIndex);
            var preview := PreviewRow(campaign, banks, group, adIndex);
      && row.finalUrl == group.finalUrl
      && preview.finalUrl == campaign.baseDomain + "/" + group.finalUrl
      && row.campaign == preview.campaign && row.adGroup == preview.adGroup
      && row.path1 == preview.path1 && row.path2 == preview.path2
      && row.descriptions == []
  {
  }

  /** Without custom headlines the legacy and RSA previews show the same
      headlines. */
  lemma LegacyMatchesPreviewWithoutCustom(campaign: CampaignConfig, banks: Banks, group: AdGroupConfig, adIndex: nat)
    requires group.customHeadlines == []
    ensures LegacyRow(campaign, banks, group, adIndex).headlines
            == PreviewRow(campaign, banks, group, adIndex).headlines
  {
  }

  /** The legacy preview lists the same number of ads as the export. */
  lemma LegacyLength(campaign: CampaignConfig, groups: seq<AdGroupConfig>, banks: Banks)
    ensures |GenerateLegacyPreview(campaign, groups, banks)| == TotalAds(groups)
  {
    RowsLength(groups, LegacyRowBuilder(campaign, banks));
  }

  /** Ad `a` of group `g` is at the same position as in the export. */
  lemma LegacyRowAt(campaign: CampaignConfig, groups: seq<AdGroupConfig>, banks: Banks, g: nat, a: nat)
    requires g < |groups| && a < groups[g].adsCount
    ensures TotalAds(groups[..g]) + a < |GenerateLegacyPreview(campaign, groups, banks)|
    ensures GenerateLegacyPreview(campaign, groups, banks)[TotalAds(groups[..g]) + a]
            == LegacyRow(campaign, banks, groups[g], a)
  {
    var f := LegacyRowBuilder(campaign, banks);
    RowsAt(groups, f, g, a);
    assert f(groups[g], a) == LegacyRow(campaign, banks, groups[g], a);
  }
}
