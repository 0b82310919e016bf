/**
 * The rules that pick one element out of what the page offers:
 * `choose_hut_option`, `choose_people_input`, `fill_personal_value` and
 * `select_country`. The page is replaced by the texts, labels and
 * enabled flags the script reads from it.
 */
module Selection {
  import opened Results
  import opened Text
  import opened Yaml

  datatype SelectionError =
    | NoHutOptions                  // "No hut options available after search"
    | AmbiguousHut(name: string)    // "Ambiguous hut selection ..."
    | NoPeopleInput                 // "No people input found"
    | RoomTypeNotText               // a non-string room type fails inside the keyword check
    | NoRoomTypeMatch               // "No people input matched room_type ..."
    | MultiplePeopleInputs          // "Multiple people inputs available ..."
    | MissingField(ariaLabel: string)   // "Missing personal field ..."
    | FieldMismatch(ariaLabel: string)  // "... is disabled and does not match config value"
    | CountryRequired               // "contact.country is required"
    | CountryNotFound(country: string)

  // ---------------------------------------------------------------------
  // choose_hut_option
  // ---------------------------------------------------------------------

  /** The two tiers of `choose_hut_option`: exact text, then case-insensitive substring. */
  datatype Tier = Exact | Loose

  /** An option text (already trimmed) matches the hut name in the given tier. */
  predicate Matches(text: string, name: string, tier: Tier) {
    match tier
    case Exact => text == name
    case Loose => Contains(Lower(text), Lower(name))
  }

  /** The positions holding `true`, in increasing order. */
  function Positions(flags: seq<bool>): (ix: seq<nat>)
    ensures forall k :: 0 <= k < |ix| ==> ix[k] < |flags| && flags[ix[k]]
    ensures forall i :: 0 <= i < |flags| && flags[i] ==> i in ix
    ensures forall k, l :: 0 <= k < l < |ix| ==> ix[k] < ix[l]
    ensures |ix| >= 2 ==> ix[0] != ix[1]
  {
    if flags == [] then []
    else
      var ix := Positions(flags[..|flags| - 1]);
      if flags[|flags| - 1] then ix + [|flags| - 1] else ix
  }

  /** `[i for i, text in enumerate(texts) if ...]`: the matching positions, in order. */
  function MatchIndices(texts: seq<string>, name: string, tier: Tier): (ix: seq<nat>)
    ensures forall k :: 0 <= k < |ix| ==> ix[k] < |texts| && Matches(texts[ix[k]], name, tier)
    ensures forall i :: 0 <= i < |texts| && Matches(texts[i], name, tier) ==> i in ix
    ensures forall k, l :: 0 <= k < l < |ix| ==> ix[k] < ix[l]
    ensures |ix| >= 2 ==> ix[0] != ix[1]
  {
    Positions(seq(|texts|, i requires 0 <= i < |texts| => Matches(texts[i], name, tier)))
  }

  /** Option `i` is the one and only match in its tier. */
  predicate UniqueMatch(texts: seq<string>, name: string, tier: Tier, i: int) {
    0 <= i < |texts| && Matches(texts[i], name, tier)
    && forall j :: 0 <= j < |texts| && j != i ==> !Matches(texts[j], name, tier)
  }

  function StripAll(texts: seq<string>): (r: seq<string>)
    ensures |r| == |texts| && forall i :: 0 <= i < |texts| ==> r[i] == Strip(texts[i])
  {
    seq(|texts|, i requires 0 <= i < |texts| => Strip(texts[i]))
  }

  lemma {:induction false} SingleIndexIsUnique(texts: seq<string>, name: string, tier: Tier)
    ensures var ix := MatchIndices(texts, name, tier);
      |ix| == 1 <==> exists i :: UniqueMatch(texts, name, tier, i)
  {
    var ix := MatchIndices(texts, name, tier);
    if |ix| == 1 {
      assert UniqueMatch(texts, name, tier, ix[0]);
    }
    if exists i :: UniqueMatch(texts, name, tier, i) {
      var i :| UniqueMatch(texts, name, tier, i);
      assert i in ix;
      forall k | 0 <= k < |ix| ensures ix[k] == i {
        assert Matches(texts[ix[k]], name, tier);
      }
    }
  }

  datatype HutChoice = HutChoice(index: nat, text: string)

  /**
   * `choose_hut_option` over the texts of the rendered options: the only
   * option whose trimmed text equals the hut name; failing that, the only
   * one that contains it ignoring case; otherwise it raises, as it does
   * when there are no options at all.
   */
  function ChooseHutOption(options: seq<string>, hutName: string): (r: Result<HutChoice, SelectionError>)
    ensures options == [] ==> r == Err(NoHutOptions)
    ensures r.Ok? ==> r.value.index < |options| && r.value.text == Strip(options[r.value.index])
    ensures r.Ok? ==>
      UniqueMatch(StripAll(options), hutName, Exact, r.value.index)
      || (!(exists i :: UniqueMatch(StripAll(options), hutName, Exact, i))
          && UniqueMatch(StripAll(options), hutName, Loose, r.value.index))
    ensures r.Ok? <==>
      (exists i :: UniqueMatch(StripAll(options), hutName, Exact, i))
      || (exists i :: UniqueMatch(StripAll(options), hutName, Loose, i))
    ensures options != [] && r.Err? ==> r.error == AmbiguousHut(hutName)
  {
    var texts := StripAll(options);
    if texts == [] then Err(NoHutOptions)
    else
      var exact := MatchIndices(texts, hutName, Exact);
      SingleIndexIsUnique(texts, hutName, Exact);
      if |exact| == 1 then
        Ok(HutChoice(exact[0], texts[exact[0]]))
      else
        var loose := MatchIndices(texts, hutName, Loose);
        SingleIndexIsUnique(texts, hutName, Loose);
        if |loose| == 1 then
          Ok(HutChoice(loose[0], texts[loose[0]]))
        else
          Err(AmbiguousHut(hutName))
  }

  /**
   * Two options that both read exactly as the hut name also both contain
   * it, so neither tier has a unique match and the choice raises rather
   * than guessing.
   */
  lemma TwoExactMatchesAreAmbiguous(options: seq<string>, hutName: string, i: nat, j: nat)
    requires i < |options| && j < |options| && i != j
    requires Strip(options[i]) == hutName && Strip(options[j]) == hutName
    ensures ChooseHutOption(options, hutName) == Err(AmbiguousHut(hutName))
  {
    var texts := StripAll(options);
    assert Matches(texts[i], hutName, Exact) && Matches(texts[j], hutName, Exact);
    ContainsItself(Lower(hutName));
    assert Matches(texts[i], hutName, Loose) && Matches(texts[j], hutName, Loose);
    forall k | 0 <= k < |texts| ensures !UniqueMatch(texts, hutName, Exact, k) && !UniqueMatch(texts, hutName, Loose, k) {
      var other := if k == i then j else i;
      assert other != k && Matches(texts[other], hutName, Exact) && Matches(texts[other], hutName, Loose);
    }
  }

  /** One exact match wins even when several options contain the name. */
  lemma UniqueExactMatchWins(options: seq<string>, hutName: string, i: nat)
    requires UniqueMatch(StripAll(options), hutName, Exact, i)
    ensures ChooseHutOption(options, hutName) == Ok(HutChoice(i, hutName))
  {
    var texts := StripAll(options);
    SingleIndexIsUnique(texts, hutName, Exact);
    var exact := MatchIndices(texts, hutName, Exact);
    assert i in exact;
  }

  // ---------------------------------------------------------------------
  // choose_people_input
  // ---------------------------------------------------------------------

  /** `ROOM_TYPE_KEYWORDS.get(room_type, [room_type])`. */
  function Keywords(roomType: string): (ks: seq<string>)
    ensures roomType != "dorm" && roomType != "private" ==> ks == [roomType]
  {
    if roomType == "dorm" then ["dorm", "dormitorio", "dortoir", "dormitory", "schlafsaal", "lager"]
    else if roomType == "private" then ["priv", "zimmer", "private", "chambre", "room", "camera"]
    else [roomType]
  }

  /** `(get_attribute("aria-label") or "").lower()`. */
  function LabelText(ariaLabel: Option<string>): string {
    match ariaLabel
    case None => ""
    case Some(s) => Lower(s)
  }

  /** `any(keyword in label for keyword in keywords)`. */
  predicate LabelMatches(ariaLabel: Option<string>, keywords: seq<string>) {
    exists k :: 0 <= k < |keywords| && Contains(LabelText(ariaLabel), keywords[k])
  }

  /** The scan of `choose_people_input`: the first input whose label holds a keyword. */
  method FirstLabelMatching(labels: seq<Option<string>>, keywords: seq<string>) returns (r: Option<nat>)
    ensures r.Some? ==> r.value < |labels| && LabelMatches(labels[r.value], keywords)
                        && forall j :: 0 <= j < r.value ==> !LabelMatches(labels[j], keywords)
    ensures r.None? ==> forall j :: 0 <= j < |labels| ==> !LabelMatches(labels[j], keywords)
  {
    for i := 0 to |labels|
      invariant forall j :: 0 <= j < i ==> !LabelMatches(labels[j], keywords)
    {
      if LabelMatches(labels[i], keywords) {
        return Some(i);
      }
    }
    return None;
  }

  /**
   * `choose_people_input` over the aria-labels of the people inputs. With
   * a room type, the first input whose lower-cased label holds one of the
   * type's keywords; an unknown type is its own keyword. Without one, the
   * only input, if there is exactly one.
   */
  method ChoosePeopleInput(labels: seq<Option<string>>, roomType: Value) returns (r: Result<nat, SelectionError>)
    ensures labels == [] ==> r == Err(NoPeopleInput)
    ensures labels != [] && Truthy(roomType) && !roomType.Str? ==> r == Err(RoomTypeNotText)
    ensures labels != [] && Truthy(roomType) && roomType.Str? ==>
      var keywords := Keywords(roomType.s);
      && (r.Ok? ==> r.value < |labels| && LabelMatches(labels[r.value], keywords)
                    && forall j :: 0 <= j < r.value ==> !LabelMatches(labels[j], keywords))
      && (r.Err? ==> r.error == NoRoomTypeMatch && forall j :: 0 <= j < |labels| ==> !LabelMatches(labels[j], keywords))
    ensures labels != [] && !Truthy(roomType) ==>
      r == (if |labels| == 1 then Ok(0) else Err(MultiplePeopleInputs))
  {
    if labels == [] {
      return Err(NoPeopleInput);
    }
    if Truthy(roomType) {
      if !roomType.Str? {
        return Err(RoomTypeNotText);
      }
      var keywords := Keywords(roomType.s);
      var found := FirstLabelMatching(labels, keywords);
      if found.Some? {
        return Ok(found.value);
      }
      return Err(NoRoomTypeMatch);
    }
    if |labels| == 1 {
      return Ok(0);
    }
    return Err(MultiplePeopleInputs);
  }

  /**
   * Labels are lower-cased before the keyword check but the room type is
   * not: a room type other than "dorm" and "private" that holds an
   * upper-case letter (say "Dorm") matches no input at all.
   */
  lemma UpperCaseRoomTypeNeverMatches(roomType: string, ariaLabel: Option<string>)
    requires roomType != "dorm" && roomType != "private"
    requires exists i :: 0 <= i < |roomType| && IsUpper(roomType[i])
    ensures !LabelMatches(ariaLabel, Keywords(roomType))
  {
    if LabelMatches(ariaLabel, Keywords(roomType)) {
      LowerHasNoUpper(if ariaLabel.Some? then ariaLabel.value else "");
      ContainsNoUpper(LabelText(ariaLabel), roomType);
    }
  }

  // ---------------------------------------------------------------------
  // fill_personal_value
  // ---------------------------------------------------------------------

  /** A personal-data input: its aria-label, whether it accepts input, and what it holds. */
  datatype Field = Field(ariaLabel: string, enabled: bool, content: string)

  /** The first field with the given aria-label, in page order. */
  function FirstWithLabel(fields: seq<Field>, ariaLabel: string): (r: Option<nat>)
    ensures r.Some? ==> r.value < |fields| && fields[r.value].ariaLabel == ariaLabel
                        && forall j :: 0 <= j < r.value ==> fields[j].ariaLabel != ariaLabel
    ensures r.None? ==> forall j :: 0 <= j < |fields| ==> fields[j].ariaLabel != ariaLabel
  {
    if fields == [] then None
    else if fields[0].ariaLabel == ariaLabel then Some(0)
    else match FirstWithLabel(fields[1..], ariaLabel)
      case None => None
      case Some(k) => Some(k + 1)
  }

  /**
   * The check for a disabled, pre-filled field: an empty value passes;
   * otherwise the value, lower-cased, must occur in the trimmed,
   * lower-cased content.
   */
  predicate DisabledFieldAccepts(value: string, content: string) {
    value == "" || Contains(Lower(Strip(content)), Lower(value))
  }

  /** A text that lower-cases like a trimmed value starts and ends as it does, without whitespace. */
  lemma PrefilledEdges(value: string, shown: string)
    requires value != "" && value == Strip(value) && Lower(shown) == Lower(value)
    ensures shown != [] && !IsSpace(shown[0]) && !IsSpace(shown[|shown| - 1])
  {
    var n := |value| - 1;
    assert |shown| == |value|;
    assert Lower(shown)[0] == LowerChar(shown[0]) && Lower(value)[0] == LowerChar(value[0]);
    assert Lower(shown)[n] == LowerChar(shown[n]) && Lower(value)[n] == LowerChar(value[n]);
  }

  /**
   * A field pre-filled with the configured value, in any letter case and
   * with blanks around it, passes the check (configured values are
   * trimmed when the configuration is loaded).
   */
  lemma PrefilledValueAccepted(value: string, pre: string, shown: string, post: string)
    requires value == Strip(value)
    requires AllSpace(pre) && AllSpace(post) && Lower(shown) == Lower(value)
    ensures DisabledFieldAccepts(value, pre + shown + post)
  {
    if value != "" {
      PrefilledEdges(value, shown);
      StripPadded(pre, shown, post);
      ContainsItself(Lower(value));
    }
  }

  /** The personal-data page: its fields in page order. */
  class PersonalForm {
    var fields: seq<Field>

    constructor (fields: seq<Field>)
      ensures this.fields == fields
    {
      this.fields := fields;
    }

    /**
     * `fill_personal_value`: nothing happens for `None`; a missing field
     * raises; an enabled field is overwritten with the value; a disabled
     * one is left as it is and raises unless it already shows the value.
     */
    method FillPersonalValue(ariaLabel: string, value: Option<string>) returns (r: Result<(), SelectionError>)
      modifies this
      ensures value.None? ==> r == Ok(()) && fields == old(fields)
      ensures value.Some? && FirstWithLabel(old(fields), ariaLabel).None? ==>
        r == Err(MissingField(ariaLabel)) && fields == old(fields)
      ensures value.Some? && FirstWithLabel(old(fields), ariaLabel).Some? ==>
        var i := FirstWithLabel(old(fields), ariaLabel).value;
        var f := old(fields)[i];
        && (f.enabled ==> r == Ok(()) && fields == old(fields)[i := f.(content := value.value)])
        && (!f.enabled ==>
              (fields == old(fields)
               && r == (if DisabledFieldAccepts(value.value, f.content) then Ok(()) else Err(FieldMismatch(ariaLabel)))))
    {
      if value.None? {
        return Ok(());
      }
      var found := FirstWithLabel(fields, ariaLabel);
      if found.None? {
        return Err(MissingField(ariaLabel));
      }
      var i := found.value;
      var f := fields[i];
      if f.enabled {
        fields := fields[i := f.(content := value.value)];
        return Ok(());
      }
      if DisabledFieldAccepts(value.value, f.content) {
        return Ok(());
      }
      return Err(FieldMismatch(ariaLabel));
    }
  }

  // ---------------------------------------------------------------------
  // select_country
  // ---------------------------------------------------------------------

  const SwissAliases: set<string> := {"switzerland", "ch", "svizzera", "suisse"}

  /** The option text `select_country` looks for: the Swiss aliases map to the site's entry. */
  function CountryOptionText(country: string): (r: Result<string, SelectionError>)
    ensures country == "" <==> r == Err(CountryRequired)
    ensures country != "" && Lower(Strip(country)) in SwissAliases ==> r == Ok("Svizzera - CH")
    ensures country != "" && Lower(Strip(country)) !in SwissAliases ==> r == Ok(country)
  {
    if country == "" then Err(CountryRequired)
    else if Lower(Strip(country)) in SwissAliases then Ok("Svizzera - CH")
    else Ok(country)
  }

  /** The first option whose text contains `text`, ignoring case. */
  function FirstContaining(options: seq<string>, text: string): (r: Option<nat>)
    ensures r.Some? ==> r.value < |options| && Contains(Lower(options[r.value]), Lower(text))
                        && forall j :: 0 <= j < r.value ==> !Contains(Lower(options[j]), Lower(text))
    ensures r.None? ==> forall j :: 0 <= j < |options| ==> !Contains(Lower(options[j]), Lower(text))
  {
    if options == [] then None
    else if Contains(Lower(options[0]), Lower(text)) then Some(0)
    else match FirstContaining(options[1..], text)
      case None => None
      case Some(k) => Some(k + 1)
  }

  /**
   * `select_country` over the texts of the country options: the first
   * option containing the mapped text, else the first containing the
   * configured value, else it raises.
   */
  function SelectCountry(options: seq<string>, country: string): (r: Result<nat, SelectionError>)
    ensures country == "" ==> r == Err(CountryRequired)
    ensures r.Ok? ==> r.value < |options|
    ensures country != "" ==>
      var wanted := CountryOptionText(country).value;
      && (FirstContaining(options, wanted).Some? ==> r == Ok(FirstContaining(options, wanted).value))
      && (FirstContaining(options, wanted).None? && FirstContaining(options, country).Some? ==>
            r == Ok(FirstContaining(options, country).value))
      && (FirstContaining(options, wanted).None? && FirstContaining(options, country).None? ==>
            r == Err(CountryNotFound(country)))
      && (r.Err? ==>
            (r.error == CountryNotFound(country)
             && forall j :: 0 <= j < |options| ==>
                  !Contains(Lower(options[j]), Lower(wanted)) && !Contains(Lower(options[j]), Lower(country))))
  {
    var wanted :- CountryOptionText(country);
    match FirstContaining(options, wanted)
    case Some(i) => Ok(i)
    case None =>
      match FirstContaining(options, country)
      case Some(i) => Ok(i)
      case None => Err(CountryNotFound(country))
  }

  /** Any spelling of a Swiss alias, in any case and with blanks around it, selects the site's entry. */
  lemma SwissAliasSpellings(pre: string, spelled: string, post: string)
    requires AllSpace(pre) && AllSpace(post)
    requires Lower(spelled) in SwissAliases
    ensures CountryOptionText(pre + spelled + post) == Ok("Svizzera - CH")
  {
    var alias := Lower(spelled);
    assert |alias| >= 2 && !IsSpace(alias[0]) && !IsSpace(alias[|alias| - 1]);
    assert alias[0] == LowerChar(spelled[0]) && alias[|alias| - 1] == LowerChar(spelled[|spelled| - 1]);
    StripPadded(pre, spelled, post);
    assert pre + spelled + post != "";
  }
}
