/** The ad-group editor (src/components/rsa/AdGroups.tsx): a list of the
    store's groups, each editable in place, and a draft form that creates
    new groups. */
module AdGroupsForm {
  import opened Seqs
  import opened Text
  import opened RsaStore
  import opened RsaTable
  import opened HeadlineBanks

  /** `adGroups.find(g => g.id === id)`: the first group with the id. */
  function FindById(groups: seq<AdGroupConfig>, id: string): (r: Option<AdGroupConfig>)
    ensures r.Some? ==> r.value in groups && r.value.id == id
    ensures r.Some? ==> exists i :: 0 <= i < |groups| && groups[i] == r.value
                                    && forall j :: 0 <= j < i ==> groups[j].id != id
    ensures r.None? <==> forall g :: g in groups ==> g.id != id
  {
    if groups == [] then None
    else if groups[0].id == id then Some(groups[0])
    else
      var rest := FindById(groups[1..], id);
      if rest.Some? then
        var i :| 0 <= i < |groups| - 1 && groups[1..][i] == rest.value
                  && forall j :: 0 <= j < i ==> groups[1..][j].id != id;
        assert groups[i + 1] == rest.value;
        assert forall j :: 0 <= j < i + 1 ==> groups[j].id != id by {
          forall j | 0 <= j < i + 1 ensures groups[j].id != id {
            if j > 0 {
              assert groups[j] == groups[1..][j - 1];
            }
          }
        }
        rest
      else rest
  }

  /** A patch that only sets the custom headlines. */
  function CustomPatch(customs: seq<string>): AdGroupPatch
  {
    EmptyPatch.(customHeadlines := Some(customs))
  }

  /** The text fields the edit view binds to `handleEditInputChange`. */
  datatype EditableField = NameField | FinalUrlField | CustomHeadlinesField

  /** The custom headlines typed into the edit view's text box: one per
      non-blank ";" piece, trimmed, then cut to its length limit. */
  function ParseCustomHeadlines(value: string): (hs: seq<string>)
    ensures |hs| == |Variants(value)|
  {
    Map((h: string) => Truncate(h, MaxLength(h)), Variants(value))
  }

  /** Each parsed headline is the matching phrasing cut to 30 characters:
      a phrasing has no ";", so its limit is 30. */
  lemma ParsedHeadlinesFit(value: string)
    ensures var hs := ParseCustomHeadlines(value);
      forall i :: 0 <= i < |hs| ==>
        && hs[i] != "" && |hs[i]| <= PhrasingLimit
        && hs[i] == Variants(value)[i][..|hs[i]|]
        && (|Variants(value)[i]| > PhrasingLimit ==> hs[i] == Variants(value)[i][..PhrasingLimit])
        && (|Variants(value)[i]| <= PhrasingLimit ==> hs[i] == Variants(value)[i])
  {
    var vs := Variants(value);
    var hs := ParseCustomHeadlines(value);
    VariantsShape(value);
    forall i | 0 <= i < |hs|
      ensures hs[i] != "" && |hs[i]| <= PhrasingLimit && hs[i] == vs[i][..|hs[i]|]
      ensures |vs[i]| > PhrasingLimit ==> hs[i] == vs[i][..PhrasingLimit]
      ensures |vs[i]| <= PhrasingLimit ==> hs[i] == vs[i]
    {
      assert vs[i] in vs;
      assert MaxLength(vs[i]) == PhrasingLimit;
    }
  }

  /** Phrasings of at most 30 characters are kept whole. */
  lemma ParsedShortPhrasings(value: string)
    requires forall v :: v in Variants(value) ==> |v| <= PhrasingLimit
    ensures ParseCustomHeadlines(value) == Variants(value)
  {
    var vs := Variants(value);
    var hs := ParseCustomHeadlines(value);
    forall i | 0 <= i < |hs| ensures hs[i] == vs[i] {
      assert vs[i] in vs;
    }
  }

  /** The patch an edit of `field` sends: the parsed headlines for the custom
      headlines box, the raw value for the others (`{ [field]: value }`). */
  function EditPatch(field: EditableField, value: string): AdGroupPatch
  {
    match field
    case NameField => EmptyPatch.(name := Some(value))
    case FinalUrlField => EmptyPatch.(finalUrl := Some(value))
    case CustomHeadlinesField => CustomPatch(ParseCustomHeadlines(value))
  }

  /** `handleSaveGroup`'s clean-up: the custom headlines trimmed, the empty
      ones dropped. */
  function SaveCustomHeadlines(customs: seq<string>): (r: seq<string>)
    ensures |r| <= |customs|
  {
    Phrasings(customs)
  }

  /** After saving, every custom headline is non-empty and trimmed, and they
      are the trimmed non-empty inputs in order. */
  lemma SavedCustomHeadlines(customs: seq<string>)
    ensures forall h :: h in SaveCustomHeadlines(customs) ==> h != "" && IsTrimmed(h)
    ensures SaveCustomHeadlines(customs) == Filter(IsNonEmpty, Map(Trim, customs))
  {
    PhrasingsTrimmed(customs);
    PhrasingsTrimThenFilter(customs);
  }

  /** Saving a second time changes nothing. */
  lemma SaveCustomHeadlinesIdempotent(customs: seq<string>)
    ensures SaveCustomHeadlines(SaveCustomHeadlines(customs)) == SaveCustomHeadlines(customs)
  {
    PhrasingsTrimmed(customs);
    PhrasingsOfPhrasings(Phrasings(customs));
  }

  /** Non-empty trimmed headlines pass the clean-up unchanged. */
  lemma PhrasingsOfPhrasings(xs: seq<string>)
    requires forall x :: x in xs ==> x != "" && IsTrimmed(x)
    ensures Phrasings(xs) == xs
  {
    forall x | x in xs ensures !IsBlank(x) {
      assert !IsJsWhitespace(x[0]);
    }
    PhrasingsKeepAll(xs);
    var trimmed := Map(Trim, xs);
    forall i | 0 <= i < |xs| ensures trimmed[i] == xs[i] {
      assert xs[i] in xs;
      TrimOfTrimmed(xs[i]);
    }
  }

  /** The Add button next to a custom-headline box: a non-blank input is
      appended trimmed, a blank one is ignored. */
  function AddCustom(customs: seq<string>, input: string): (r: seq<string>)
    ensures IsBlank(input) ==> r == customs
    ensures !IsBlank(input) ==> |r| == |customs| + 1 && r[..|customs|] == customs
                                && r[|customs|] != "" && IsTrimmed(r[|customs|])
    ensures !IsBlank(input) ==> r == customs + [Trim(input)]
  {
    if IsBlank(input) then customs else customs + [Trim(input)]
  }

  /** `customs.filter((_, i) => i !== index)`. */
  function RemoveAt(customs: seq<string>, index: nat): (r: seq<string>)
    ensures index < |customs| ==> |r| == |customs| - 1
    ensures index >= |customs| ==> r == customs
  {
    if index < |customs| then customs[..index] + customs[index + 1..] else customs
  }

  /** Removing keeps the headlines before the index in place and shifts the
      ones after it down by one. */
  lemma RemoveAtShifts(customs: seq<string>, index: nat)
    requires index < |customs|
    ensures var r := RemoveAt(customs, index);
      && (forall i :: 0 <= i < index ==> r[i] == customs[i])
      && (forall i :: index <= i < |r| ==> r[i] == customs[i + 1])
  {
  }

  /** Adding a headline and then removing it by its index restores the list. */
  lemma RemoveAddedCustom(customs: seq<string>, input: string)
    requires !IsBlank(input)
    ensures RemoveAt(AddCustom(customs, input), |customs|) == customs
  {
    var r := AddCustom(customs, input);
    assert r[..|customs|] == customs;
    assert r[|customs| + 1..] == [];
  }

  /** `updated[index] = value` on a copy of the list. */
  function ReplaceAt(customs: seq<string>, index: nat, value: string): (r: seq<string>)
    requires index < |customs|
    ensures |r| == |customs| && r[index] == value
    ensures forall i :: 0 <= i < |customs| && i != index ==> r[i] == customs[i]
  {
    customs[index := value]
  }

  /** The draft of a new group: the form's fields. Its `adsCount` starts and
      is reset at 2; no control changes it. */
  datatype Draft = Draft(
    name: string,
    finalUrl: string,
    adsCount: nat,
    path1: string,
    path2: string,
    customHeadlines: seq<string>,
    newHeadline: string)

  /** The draft as the form starts and is reset to. */
  const EmptyDraft := Draft("", "", 2, "", "", [], "")

  const MissingFieldsError := "Group Name and Final URL are required."

  /** `!newGroup.name || !newGroup.finalUrl`. */
  predicate IsComplete(draft: Draft)
  {
    draft.name != "" && draft.finalUrl != ""
  }

  /** The group `handleAddGroup` adds from a complete draft. */
  function NewGroup(draft: Draft, id: string): (g: AdGroupConfig)
    ensures g.id == id && g.name == draft.name && g.finalUrl == draft.finalUrl
    ensures g.adsCount == (if draft.adsCount == 0 then 2 else draft.adsCount)
    ensures g.adsCount > 0
    ensures g.path1 == Some(draft.path1) && g.path2 == Some(draft.path2)
    ensures g.utilityHeadlines == [] && g.customHeadlines == draft.customHeadlines
  {
    AdGroupConfig(
      id,
      draft.name,
      draft.finalUrl,
      Some(draft.path1),
      Some(draft.path2),
      if draft.adsCount == 0 then 2 else draft.adsCount,
      [],
      draft.customHeadlines)
  }

  /** Every group the form creates has at least one ad, so it adds rows to
      the export: as many as its `adsCount`. */
  lemma NewGroupAddsRows(campaign: CampaignConfig, groups: seq<AdGroupConfig>, banks: Banks, draft: Draft, id: string)
    ensures var g := NewGroup(draft, id);
      |BuildRsaTable(campaign, groups + [g], banks)| == |BuildRsaTable(campaign, groups, banks)| + g.adsCount
  {
    var g := NewGroup(draft, id);
    TableAppendGroup(campaign, groups, banks, g);
  }

  /** The editor's own state next to the shared store. */
  class AdGroupsEditor {
    const store: Store
    var draft: Draft
    var editingGroupId: Option<string>
    var error: string

    constructor (store: Store)
      ensures this.store == store
      ensures draft == EmptyDraft && editingGroupId == None && error == ""
    {
      this.store := store;
      draft := EmptyDraft;
      editingGroupId := None;
      error := "";
    }

    /** The Edit button of a group. */
    method StartEditing(groupId: string)
      modifies this
      ensures editingGroupId == Some(groupId)
      ensures draft == old(draft) && error == old(error)
    {
      editingGroupId := Some(groupId);
    }

    /** The Remove button of a group. */
    method RemoveGroup(groupId: string)
      modifies store
      ensures store.adGroups == RemoveById(old(store.adGroups), groupId)
      ensures forall g :: g in store.adGroups ==> g.id != groupId
      ensures store.campaign == old(store.campaign) && store.banks == old(store.banks)
    {
      store.RemoveAdGroup(groupId);
    }

    /** `handleEditInputChange`: no change when no group has the id. */
    method EditInputChange(field: EditableField, groupId: string, value: string)
      modifies store
      ensures FindById(old(store.adGroups), groupId).None? ==> store.adGroups == old(store.adGroups)
      ensures FindById(old(store.adGroups), groupId).Some? ==>
                store.adGroups == UpdateById(old(store.adGroups), groupId, EditPatch(field, value))
      ensures store.campaign == old(store.campaign) && store.banks == old(store.banks)
    {
      if FindById(store.adGroups, groupId).Some? {
        store.UpdateAdGroup(groupId, EditPatch(field, value));
      }
    }

    /** `handleSaveGroup`: the found group's custom headlines are cleaned up;
      the edit view closes in any case. */
    method SaveGroup(groupId: string)
      modifies this, store
      ensures var found := FindById(old(store.adGroups), groupId);
        && (found.None? ==> store.adGroups == old(store.adGroups))
        && (found.Some? ==> store.adGroups == UpdateById(old(store.adGroups), groupId,
                                CustomPatch(SaveCustomHeadlines(found.value.customHeadlines))))
      ensures editingGroupId == None && draft == old(draft) && error == old(error)
      ensures store.campaign == old(store.campaign) && store.banks == old(store.banks)
    {
      var found := FindById(store.adGroups, groupId);
      if found.Some? {
        store.UpdateAdGroup(groupId, CustomPatch(SaveCustomHeadlines(found.value.customHeadlines)));
      }
      editingGroupId := None;
    }

    /** `handleAddGroup`: an incomplete draft only sets the error; a complete
      one is added under the given id, then the draft and error are reset. */
    method AddGroup(id: string)
      modifies this, store
      ensures !IsComplete(old(draft)) ==>
                && store.adGroups == old(store.adGroups)
                && error == MissingFieldsError && draft == old(draft)
      ensures IsComplete(old(draft)) ==>
                && store.adGroups == old(store.adGroups) + [NewGroup(old(draft), id)]
                && error == "" && draft == EmptyDraft
      ensures editingGroupId == old(editingGroupId)
      ensures store.campaign == old(store.campaign) && store.banks == old(store.banks)
    {
      if !IsComplete(draft) {
        error := MissingFieldsError;
        return;
      }
      store.AddAdGroup(NewGroup(draft, id));
      draft := EmptyDraft;
      error := "";
    }

    /** The shared add box's `onChange`. */
    method SetNewHeadline(value: string)
      modifies this
      ensures draft == old(draft).(newHeadline := value)
      ensures editingGroupId == old(editingGroupId) && error == old(error)
    {
      draft := draft.(newHeadline := value);
    }

    /** The Add button in the edit view of group number `k`: appends the
      trimmed add box to that group's headlines and clears the box; a blank
      box does nothing. */
    method AddCustomHeadlineToGroup(k: nat)
      requires k < |store.adGroups|
      modifies this, store
      ensures var g := old(store.adGroups)[k];
        && (IsBlank(old(draft).newHeadline) ==>
              store.adGroups == old(store.adGroups) && draft == old(draft))
        && (!IsBlank(old(draft).newHeadline) ==>
              && store.adGroups == UpdateById(old(store.adGroups), g.id,
                   CustomPatch(AddCustom(g.customHeadlines, old(draft).newHeadline)))
              && draft == old(draft).(newHeadline := ""))
      ensures editingGroupId == old(editingGroupId) && error == old(error)
      ensures store.campaign == old(store.campaign) && store.banks == old(store.banks)
    {
      var g := store.adGroups[k];
      if IsBlank(draft.newHeadline) {
        return;
      }
      store.UpdateAdGroup(g.id, CustomPatch(AddCustom(g.customHeadlines, draft.newHeadline)));
      draft := draft.(newHeadline := "");
    }

    /** The Remove button of custom headline `index` of group number `k`. */
    method RemoveCustomHeadlineFromGroup(k: nat, index: nat)
      requires k < |store.adGroups|
      modifies store
      ensures var g := old(store.adGroups)[k];
        store.adGroups == UpdateById(old(store.adGroups), g.id, CustomPatch(RemoveAt(g.customHeadlines, index)))
      ensures store.campaign == old(store.campaign) && store.banks == old(store.banks)
    {
      var g := store.adGroups[k];
      store.UpdateAdGroup(g.id, CustomPatch(RemoveAt(g.customHeadlines, index)));
    }

    /** Typing into custom headline `index` of group number `k`. */
    method EditGroupCustomHeadline(k: nat, index: nat, value: string)
      requires k < |store.adGroups| && index < |store.adGroups[k].customHeadlines|
      modifies store
      ensures var g := old(store.adGroups)[k];
        store.adGroups == UpdateById(old(store.adGroups), g.id, CustomPatch(ReplaceAt(g.customHeadlines, index, value)))
      ensures store.campaign == old(store.campaign) && store.banks == old(store.banks)
    {
      var g := store.adGroups[k];
      store.UpdateAdGroup(g.id, CustomPatch(ReplaceAt(g.customHeadlines, index, value)));
    }

    /** The Add button of the draft's custom headlines. */
    method AddDraftCustomHeadline()
      modifies this
      ensures IsBlank(old(draft).newHeadline) ==> draft == old(draft)
      ensures !IsBlank(old(draft).newHeadline) ==>
                draft == old(draft).(customHeadlines := AddCustom(old(draft).customHeadlines, old(draft).newHeadline),
                                     newHeadline := "")
      ensures editingGroupId == old(editingGroupId) && error == old(error)
    {
      if !IsBlank(draft.newHeadline) {
        draft := draft.(customHeadlines := AddCustom(draft.customHeadlines, draft.newHeadline), newHeadline := "");
      }
    }

    /** The Remove button of draft custom headline `index`. */
    method RemoveDraftCustomHeadline(index: nat)
      modifies this
      ensures draft == old(draft).(customHeadlines := RemoveAt(old(draft).customHeadlines, index))
      ensures editingGroupId == old(editingGroupId) && error == old(error)
    {
      draft := draft.(customHeadlines := RemoveAt(draft.customHeadlines, index));
    }

    /** Typing into draft custom headline `index`. */
    method EditDraftCustomHeadline(index: nat, value: string)
      requires index < |draft.customHeadlines|
      modifies this
      ensures draft == old(draft).(customHeadlines := ReplaceAt(old(draft).customHeadlines, index, value))
      ensures editingGroupId == old(editingGroupId) && error == old(error)
    {
      draft := draft.(customHeadlines := ReplaceAt(draft.customHeadlines, index, value));
    }
  }
}
