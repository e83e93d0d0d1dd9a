/** The headline-bank editor (src/components/rsa/HeadlineBanks.tsx): one tab
    per category, an edit mode with a text box per headline and a box that
    adds new headlines, and the per-headline length limit. */
module HeadlineBanks {
  import opened Seqs
  import opened Text
  import opened RsaStore
  import opened RsaTable

  /** Characters allowed in one phrasing of a headline. */
  const PhrasingLimit: nat := 30

  /** `calculateMaxLength`: 30 characters for the first phrasing and 31 more
      (a separator and 30 characters) for each further one. */
  function MaxLength(text: string): (n: nat)
    ensures n >= PhrasingLimit
  {
    PhrasingLimit + (PhrasingLimit + 1) * Count(text, VariantSeparator)
  }

  /** The budget is enough for ";" pieces of at most 30 characters: a
      template whose every piece, untrimmed, fits in 30 characters fits its
      limit. */
  lemma MaxLengthFitsPhrasings(text: string)
    requires forall p :: p in Split(text, VariantSeparator) ==> |p| <= PhrasingLimit
    ensures |text| <= MaxLength(text)
  {
    var parts := Split(text, VariantSeparator);
    JoinSplit(text, VariantSeparator);
    JoinLength(parts, VariantSeparator);
    TotalLengthBound(parts, PhrasingLimit);
  }

  /** The limit a headline is checked against: its stored `maxLength`
      unless that is absent or 0 (`headline.maxLength || calculateMaxLength(text)`). */
  function Limit(item: HeadlineItem): int
  {
    if item.maxLength.Some? && item.maxLength.value != 0 then item.maxLength.value
    else MaxLength(item.text)
  }

  /** `isOverLimit`. */
  predicate IsOverLimit(item: HeadlineItem)
  {
    |item.text| > Limit(item)
  }

  /** A headline without a stored limit, or with a stored 0, is over its
      limit exactly when it has more characters than its computed budget (`MaxLength`). */
  lemma OverLimitWithoutStoredLimit(item: HeadlineItem)
    requires item.maxLength.None? || item.maxLength.value == 0
    ensures IsOverLimit(item) <==> |item.text| > MaxLength(item.text)
  {
  }

  /** A headline with a stored non-zero limit is over its limit exactly when
      it has more characters than that limit, whatever its `;` pieces. */
  lemma OverLimitWithStoredLimit(item: HeadlineItem, m: nat)
    requires item.maxLength == Some(m) && m != 0
    ensures IsOverLimit(item) <==> |item.text| > m
  {
  }

  /** One headline after its text box changed to `value`: the text is cut to
      the limit of `value` and that limit is stored. */
  function Edited(item: HeadlineItem, value: string): (r: HeadlineItem)
    ensures |r.text| <= |value| && r.text == value[..|r.text|] && |r.text| <= MaxLength(value)
    ensures |value| <= MaxLength(value) ==> r.text == value
    ensures |value| > MaxLength(value) ==> r.text == value[..MaxLength(value)]
    ensures r.maxLength == Some(MaxLength(value))
    ensures r == item.(text := r.text, maxLength := r.maxLength)
  {
    var limit := MaxLength(value);
    item.(text := Truncate(value, limit), maxLength := Some(limit))
  }

  /** `handleInputChange`'s map over a bank: every item with the edited id
      is replaced, the others are kept. */
  function EditHeadlineText(items: seq<HeadlineItem>, id: string, value: string): (r: seq<HeadlineItem>)
    ensures |r| == |items|
    ensures forall i :: 0 <= i < |items| && items[i].id != id ==> r[i] == items[i]
    ensures forall i :: 0 <= i < |items| && items[i].id == id ==> r[i] == Edited(items[i], value)
  {
    Map((item: HeadlineItem) => if item.id == id then Edited(item, value) else item, items)
  }

  /** An edited headline is never over its limit: the stored limit is at
      least 30 and the text was cut to it. */
  lemma EditedWithinLimit(item: HeadlineItem, value: string)
    ensures !IsOverLimit(Edited(item, value))
  {
  }

  /** Typing the same value twice gives the same bank as typing it once. */
  lemma EditIdempotent(items: seq<HeadlineItem>, id: string, value: string)
    ensures EditHeadlineText(EditHeadlineText(items, id, value), id, value) == EditHeadlineText(items, id, value)
  {
    var once := EditHeadlineText(items, id, value);
    var twice := EditHeadlineText(once, id, value);
    forall i | 0 <= i < |items| ensures twice[i] == once[i] {
      if items[i].id == id {
        var limit := MaxLength(value);
        assert once[i] == items[i].(text := Truncate(value, limit), maxLength := Some(limit));
      }
    }
  }

  /** A value whose every ";" piece, untrimmed, fits in 30 characters is
      stored verbatim. */
  lemma EditKeepsFittingValue(item: HeadlineItem, value: string)
    requires forall p :: p in Split(value, VariantSeparator) ==> |p| <= PhrasingLimit
    ensures Edited(item, value).text == value
  {
    MaxLengthFitsPhrasings(value);
  }

  function HasText(item: HeadlineItem): bool
  {
    !IsBlank(item.text)
  }

  /** `handleSaveCategory`'s filter: the headlines whose text is not blank. */
  function KeepNonBlank(items: seq<HeadlineItem>): (r: seq<HeadlineItem>)
    ensures |r| <= |items|
  {
    Filter(HasText, items)
  }

  /** Saving keeps exactly the headlines with visible text. */
  lemma KeepNonBlankMembers(items: seq<HeadlineItem>)
    ensures forall item :: item in KeepNonBlank(items) <==> item in items && !IsBlank(item.text)
  {
    FilterMembers(HasText, items);
  }

  /** Saving twice is saving once. */
  lemma KeepNonBlankIdempotent(items: seq<HeadlineItem>)
    ensures KeepNonBlank(KeepNonBlank(items)) == KeepNonBlank(items)
  {
    FilterIdempotent(HasText, items);
  }

  /** The headlines typed into the add box: one per non-blank ";" piece,
      trimmed, with id `newId(k)` for the k-th, the bank's
      category and no variants. */
  function NewHeadlineItems(category: HeadlineCategory, input: string, newId: nat -> string): (r: seq<HeadlineItem>)
    ensures |r| == |Variants(input)|
    ensures forall k :: 0 <= k < |r| ==> r[k].id == newId(k) && r[k].category == category && r[k].variants == []
  {
    var vs := Variants(input);
    seq(|vs|, k requires 0 <= k < |vs| => HeadlineItem(newId(k), category, vs[k], [], None, None, None))
  }

  /** The texts of the added headlines are the input's pieces, trimmed, with
      the empty ones dropped; each is non-empty, trimmed and free of ";". */
  lemma NewHeadlineTexts(category: HeadlineCategory, input: string, newId: nat -> string)
    ensures var r := NewHeadlineItems(category, input, newId);
      && Texts(r) == Filter(IsNonEmpty, Map(Trim, Split(input, VariantSeparator)))
      && forall item :: item in r ==>
           item.text != "" && IsTrimmed(item.text) && VariantSeparator !in item.text
  {
    NewHeadlineTextsAreVariants(category, input, newId);
    PhrasingsTrimThenFilter(Split(input, VariantSeparator));
    NewHeadlineTextsShape(category, input, newId);
  }

  /** The texts of a list of headlines. */
  function Texts(items: seq<HeadlineItem>): seq<string>
  {
    seq(|items|, k requires 0 <= k < |items| => items[k].text)
  }

  lemma NewHeadlineTextsAreVariants(category: HeadlineCategory, input: string, newId: nat -> string)
    ensures Texts(NewHeadlineItems(category, input, newId)) == Variants(input)
  {
  }

  lemma NewHeadlineTextsShape(category: HeadlineCategory, input: string, newId: nat -> string)
    ensures forall item :: item in NewHeadlineItems(category, input, newId) ==>
              item.text != "" && IsTrimmed(item.text) && VariantSeparator !in item.text
  {
    var r := NewHeadlineItems(category, input, newId);
    VariantsShape(input);
    forall item | item in r
      ensures item.text != "" && IsTrimmed(item.text) && VariantSeparator !in item.text
    {
      var k :| 0 <= k < |r| && r[k] == item;
      assert item.text == Variants(input)[k];
      assert Variants(input)[k] in Variants(input);
    }
  }

  /** `handleAddHeadline`'s new bank: unchanged for a blank input, otherwise
      the old headlines followed by the new ones. */
  function AddHeadlines(items: seq<HeadlineItem>, category: HeadlineCategory, input: string, newId: nat -> string): seq<HeadlineItem>
  {
    if IsBlank(input) then items else items + NewHeadlineItems(category, input, newId)
  }

  /** Adding keeps every old headline in place and appends at most one new
      headline per ";" piece of the input. */
  lemma AddHeadlinesShape(items: seq<HeadlineItem>, category: HeadlineCategory, input: string, newId: nat -> string)
    ensures var r := AddHeadlines(items, category, input, newId);
      && |items| <= |r| <= |items| + Count(input, VariantSeparator) + 1
      && r[..|items|] == items
      && (IsBlank(input) ==> r == items)
  {
    VariantsShape(input);
    var r := AddHeadlines(items, category, input, newId);
    assert r[..|items|] == items;
  }

  /** Saving after adding keeps every added headline, after the old ones
      that survive. */
  lemma SaveKeepsAdded(items: seq<HeadlineItem>, category: HeadlineCategory, input: string, newId: nat -> string)
    requires !IsBlank(input)
    ensures KeepNonBlank(AddHeadlines(items, category, input, newId))
            == KeepNonBlank(items) + NewHeadlineItems(category, input, newId)
  {
    var added := NewHeadlineItems(category, input, newId);
    FilterAppend(HasText, items, added);
    NewHeadlineTexts(category, input, newId);
    forall item | item in added ensures HasText(item) {
      assert item.text != "";
      assert IsTrimmed(item.text);
    }
    FilterKeepsAll(HasText, added);
  }

  /** The editor's own state next to the shared store: the category being
      edited and the add box's text. */
  class HeadlineBanksPanel {
    const store: Store
    var editingCategory: Option<HeadlineCategory>
    var newHeadline: string

    constructor (store: Store)
      ensures this.store == store
      ensures editingCategory == None && newHeadline == ""
    {
      this.store := store;
      editingCategory := None;
      newHeadline := "";
    }

    /** The Edit button of a tab. */
    method StartEditing(category: HeadlineCategory)
      modifies this
      ensures editingCategory == Some(category) && newHeadline == old(newHeadline)
    {
      editingCategory := Some(category);
    }

    /** The add box's `onChange`. */
    method SetNewHeadline(value: string)
      modifies this
      ensures newHeadline == value && editingCategory == old(editingCategory)
    {
      newHeadline := value;
    }

    /** `handleSaveCategory`. */
    method SaveCategory(category: HeadlineCategory)
      modifies this, store
      ensures store.banks == old(store.banks).With(category, KeepNonBlank(old(store.banks).Get(category)))
      ensures forall item :: item in store.banks.Get(category) ==> !IsBlank(item.text)
      ensures store.campaign == old(store.campaign) && store.adGroups == old(store.adGroups)
      ensures editingCategory == None && newHeadline == old(newHeadline)
    {
      KeepNonBlankMembers(store.banks.Get(category));
      store.SetBank(category, KeepNonBlank(store.banks.Get(category)));
      editingCategory := None;
    }

    /** `handleInputChange`. */
    method InputChange(category: HeadlineCategory, id: string, value: string)
      modifies store
      ensures store.banks == old(store.banks).With(category, EditHeadlineText(old(store.banks).Get(category), id, value))
      ensures forall item :: item in store.banks.Get(category) && item.id == id ==> !IsOverLimit(item)
      ensures store.campaign == old(store.campaign) && store.adGroups == old(store.adGroups)
    {
      var items := store.banks.Get(category);
      var edited := EditHeadlineText(items, id, value);
      forall item | item in edited && item.id == id ensures !IsOverLimit(item) {
        var i :| 0 <= i < |edited| && edited[i] == item;
        assert items[i].id == id;
        EditedWithinLimit(items[i], value);
      }
      store.SetBank(category, edited);
    }

    /** `handleAddHeadline`: a blank add box changes nothing; otherwise the
      new headlines are appended and the box is cleared. */
    method AddHeadline(category: HeadlineCategory, newId: nat -> string)
      modifies this, store
      ensures IsBlank(old(newHeadline)) ==>
                store.banks == old(store.banks) && newHeadline == old(newHeadline)
      ensures !IsBlank(old(newHeadline)) ==>
                store.banks == old(store.banks).With(category,
                  AddHeadlines(old(store.banks).Get(category), category, old(newHeadline), newId))
                && newHeadline == ""
      ensures store.campaign == old(store.campaign) && store.adGroups == old(store.adGroups)
      ensures editingCategory == old(editingCategory)
    {
      if IsBlank(newHeadline) {
        return;
      }
      store.SetBank(category, AddHeadlines(store.banks.Get(category), category, newHeadline, newId));
      newHeadline := "";
    }
  }
}
