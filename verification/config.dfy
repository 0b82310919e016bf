/**
 * Validation of the booking configuration (`require_*`, `optional_*`,
 * `parse_date`, `load_config`). The YAML document arrives already loaded as
 * a `Value`; the result is either a validated `BookingConfig` or the first
 * `ConfigError` the validators raise, in the order the script checks.
 */
module Config {
  import opened Results
  import opened Text
  import opened Yaml
  import opened Dates

  type Mapping = map<string, Value>

  /** One constructor per `ValueError` message the validators raise. */
  datatype ConfigError =
    | NotAMapping                                   // "Config must be a YAML mapping"
    | NotNonEmptyString(context: string, key: string)
    | MissingInteger(context: string, key: string)
    | NotInteger(context: string, key: string)
    | NotPositive(context: string, key: string)     // "must be >= 1"
    | NotBoolean(context: string, key: string)      // require_bool
    | OptionalNotBoolean(key: string)               // optional_bool
    | Negative(key: string)                         // "must be >= 0"
    | NotString(key: string)
    | NotDict(context: string, key: string)
    | BadDate(key: string)
    | UnknownLoginProvider
    | CheckOutNotAfterCheckIn
    | PreferencesNotDict
    | TermsMissing
    | TermsNotTrue

  datatype Contact = Contact(
    firstName: string, lastName: string, email: string, phone: string,
    addressLine1: string, city: string, postalCode: string, country: string)

  /** `preferences` entries are passed through unvalidated. */
  datatype Preferences = Preferences(roomType: Value, remarks: Value)

  datatype Stay = Stay(
    childrenCount: nat, guidesCount: nat, vegetarianCount: nat, lunchPackages: nat,
    groupName: Option<string>, accessToHut: Option<string>,
    allergies: Option<string>, comments: Option<string>)

  datatype BookingConfig = BookingConfig(
    loginProvider: string, hutName: string, checkIn: string, checkOut: string,
    partySize: int, contact: Contact, preferences: Preferences,
    halfBoard: bool, allowAlternativeDates: bool, stay: Stay)

  /** A present string entry that is not blank. */
  predicate HasText(data: Mapping, key: string) {
    key in data && data[key].Str? && !AllSpace(data[key].s)
  }

  /** `require_str`: a non-blank string, returned trimmed. */
  function RequireStr(data: Mapping, key: string, context: string): (r: Result<string, ConfigError>)
    ensures r.Ok? <==> HasText(data, key)
    ensures r.Ok? ==> r.value == Strip(data[key].s) && r.value != ""
                      && !IsSpace(r.value[0]) && !IsSpace(r.value[|r.value| - 1])
    ensures r.Err? ==> r.error == NotNonEmptyString(context, key)
  {
    if key !in data || !data[key].Str? || Strip(data[key].s) == "" then
      Err(NotNonEmptyString(context, key))
    else
      Ok(Strip(data[key].s))
  }

  /** `require_int`: present, convertible by `int()`, and at least 1. */
  function RequireInt(data: Mapping, key: string, context: string): (r: Result<int, ConfigError>)
    ensures r.Ok? <==> key in data && IntOf(data[key]).Some? && IntOf(data[key]).value >= 1
    ensures r.Ok? ==> r.value >= 1 && r.value == IntOf(data[key]).value
    ensures key !in data ==> r == Err(MissingInteger(context, key))
    ensures key in data && IntOf(data[key]).None? ==> r == Err(NotInteger(context, key))
    ensures key in data && IntOf(data[key]).Some? && IntOf(data[key]).value < 1 ==> r == Err(NotPositive(context, key))
  {
    if key !in data then Err(MissingInteger(context, key))
    else match IntOf(data[key])
      case None => Err(NotInteger(context, key))
      case Some(n) => if n <= 0 then Err(NotPositive(context, key)) else Ok(n)
  }

  /** `require_bool`: present and a boolean. */
  function RequireBool(data: Mapping, key: string, context: string): (r: Result<bool, ConfigError>)
    ensures r.Ok? <==> key in data && data[key].Bool?
    ensures r.Ok? ==> data[key] == Bool(r.value)
  {
    if key !in data || !data[key].Bool? then Err(NotBoolean(context, key)) else Ok(data[key].b)
  }

  /** `optional_bool`: absent means the default; present must be a boolean (even `null` is refused). */
  function OptionalBool(data: Mapping, key: string, default: bool): (r: Result<bool, ConfigError>)
    ensures key !in data ==> r == Ok(default)
    ensures key in data ==> (r.Ok? <==> data[key].Bool?)
    ensures key in data && r.Ok? ==> data[key] == Bool(r.value)
  {
    if key !in data then Ok(default)
    else if !data[key].Bool? then Err(OptionalNotBoolean(key))
    else Ok(data[key].b)
  }

  /** The non-null case of `optional_int`: `int()` of the value, refused when negative. */
  function NonNegativeInt(v: Value, key: string): (r: Result<int, ConfigError>)
    ensures r.Ok? <==> IntOf(v).Some? && IntOf(v).value >= 0
    ensures r.Ok? ==> r.value == IntOf(v).value && r.value >= 0
  {
    match IntOf(v)
    case None => Err(NotInteger("config", key))
    case Some(n) => if n < 0 then Err(Negative(key)) else Ok(n)
  }

  /** `optional_int`: absent or `null` means the default; otherwise a non-negative `int()`. */
  function OptionalInt(data: Mapping, key: string, default: nat): (r: Result<nat, ConfigError>)
    ensures key !in data || data[key].Null? ==> r == Ok(default)
    ensures key in data && !data[key].Null? ==>
              (r.Ok? <==> IntOf(data[key]).Some? && IntOf(data[key]).value >= 0)
              && (r.Ok? ==> r.value == IntOf(data[key]).value)
  {
    if key !in data || data[key].Null? then Ok(default)
    else
      var n :- NonNegativeInt(data[key], key);
      Ok(n)
  }

  /** `optional_str`: absent, `null` or blank is `None`; a string is trimmed; anything else raises. */
  function OptionalStr(data: Mapping, key: string): (r: Result<Option<string>, ConfigError>)
    ensures r.Err? <==> key in data && !data[key].Null? && !data[key].Str?
    ensures r == Ok(None) <==> key !in data || data[key].Null? || (data[key].Str? && AllSpace(data[key].s))
    ensures r.Ok? && r.value.Some? ==> r.value.value == Strip(data[key].s) && r.value.value != ""
  {
    if key !in data || data[key].Null? then Ok(None)
    else if !data[key].Str? then Err(NotString(key))
    else
      var t := Strip(data[key].s);
      Ok(if t != "" then Some(t) else None)
  }

  /** `require_dict`: present and a mapping. */
  function RequireDict(data: Mapping, key: string, context: string): (r: Result<Mapping, ConfigError>)
    ensures r.Ok? <==> key in data && data[key].Dict?
    ensures r.Ok? ==> data[key] == Dict(r.value)
  {
    if key !in data || !data[key].Dict? then Err(NotDict(context, key)) else Ok(data[key].entries)
  }

  /** `parse_date`: a `YYYY-MM-DD` date or `BadDate`. */
  function ParseDate(value: string, key: string): (r: Result<Date, ConfigError>)
    ensures r.Ok? ==> ValidDate(r.value) && FormatIso(r.value) == value
    ensures r.Err? <==> ParseIsoDate(value).None?
    ensures r.Err? ==> r.error == BadDate(key)
  {
    match ParseIsoDate(value)
    case None => Err(BadDate(key))
    case Some(d) => Ok(d)
  }

  /** The scalar entries `load_config` checks first, in its order. */
  datatype Header = Header(
    loginProvider: string, hutName: string, checkIn: string, checkOut: string, partySize: int)

  /** The calendar date a present string entry names once trimmed. */
  function DateEntry(data: Mapping, key: string): Option<Date>
    requires key in data && data[key].Str?
  {
    ParseIsoDate(Strip(data[key].s))
  }

  predicate HeaderAcceptable(data: Mapping) {
    && HasText(data, "login_provider")
    && Lower(Strip(data["login_provider"].s)) in {"default", "sac"}
    && HasText(data, "hut_name") && HasText(data, "check_in") && HasText(data, "check_out")
    && "party_size" in data && IntOf(data["party_size"]).Some? && IntOf(data["party_size"]).value >= 1
    && DateEntry(data, "check_in").Some? && DateEntry(data, "check_out").Some?
    && Before(DateEntry(data, "check_in").value, DateEntry(data, "check_out").value)
  }

  /**
   * Login provider, hut, stay dates and party size: a known provider in
   * lower case, trimmed non-empty strings, a party of at least one and a
   * check-out strictly after the check-in.
   */
  function LoadHeader(data: Mapping): (r: Result<Header, ConfigError>)
    ensures r.Ok? <==> HeaderAcceptable(data)
    ensures r.Ok? ==>
      && (r.value.loginProvider == "default" || r.value.loginProvider == "sac")
      && r.value.loginProvider == Lower(Strip(data["login_provider"].s))
      && r.value.hutName == Strip(data["hut_name"].s) && r.value.hutName != ""
      && r.value.checkIn == Strip(data["check_in"].s)
      && r.value.checkOut == Strip(data["check_out"].s)
      && ParseIsoDate(r.value.checkIn).Some? && ParseIsoDate(r.value.checkOut).Some?
      && Before(ParseIsoDate(r.value.checkIn).value, ParseIsoDate(r.value.checkOut).value)
      && r.value.partySize >= 1 && r.value.partySize == IntOf(data["party_size"]).value
  {
    var provider :- RequireStr(data, "login_provider", "config");
    var loginProvider := Lower(provider);
    if loginProvider != "default" && loginProvider != "sac" then Err(UnknownLoginProvider)
    else
      var hutName :- RequireStr(data, "hut_name", "config");
      var checkInText :- RequireStr(data, "check_in", "config");
      var checkOutText :- RequireStr(data, "check_out", "config");
      var partySize :- RequireInt(data, "party_size", "config");
      var checkIn :- ParseDate(checkInText, "check_in");
      var checkOut :- ParseDate(checkOutText, "check_out");
      if !Before(checkIn, checkOut) then Err(CheckOutNotAfterCheckIn)
      else Ok(Header(loginProvider, hutName, checkInText, checkOutText, partySize))
  }

  predicate ContactAcceptable(data: Mapping) {
    && "contact" in data && data["contact"].Dict?
    && var c := data["contact"].entries;
    && HasText(c, "first_name") && HasText(c, "last_name") && HasText(c, "email")
    && HasText(c, "phone") && HasText(c, "address_line1") && HasText(c, "city")
    && HasText(c, "postal_code") && HasText(c, "country")
  }

  /** Each contact field is the trimmed entry of the same name. */
  predicate ContactFrom(c: Mapping, contact: Contact) {
    && "first_name" in c && c["first_name"].Str? && contact.firstName == Strip(c["first_name"].s)
    && "last_name" in c && c["last_name"].Str? && contact.lastName == Strip(c["last_name"].s)
    && "email" in c && c["email"].Str? && contact.email == Strip(c["email"].s)
    && "phone" in c && c["phone"].Str? && contact.phone == Strip(c["phone"].s)
    && "address_line1" in c && c["address_line1"].Str? && contact.addressLine1 == Strip(c["address_line1"].s)
    && "city" in c && c["city"].Str? && contact.city == Strip(c["city"].s)
    && "postal_code" in c && c["postal_code"].Str? && contact.postalCode == Strip(c["postal_code"].s)
    && "country" in c && c["country"].Str? && contact.country == Strip(c["country"].s)
  }

  /** The `contact` mapping: eight required, trimmed, non-empty strings. */
  function LoadContact(data: Mapping): (r: Result<Contact, ConfigError>)
    ensures r.Ok? <==> ContactAcceptable(data)
    ensures r.Ok? ==> ContactFrom(data["contact"].entries, r.value)
  {
    var contact :- RequireDict(data, "contact", "config");
    var firstName :- RequireStr(contact, "first_name", "contact");
    var lastName :- RequireStr(contact, "last_name", "contact");
    var email :- RequireStr(contact, "email", "contact");
    var phone :- RequireStr(contact, "phone", "contact");
    var addressLine1 :- RequireStr(contact, "address_line1", "contact");
    var city :- RequireStr(contact, "city", "contact");
    var postalCode :- RequireStr(contact, "postal_code", "contact");
    var country :- RequireStr(contact, "country", "contact");
    Ok(Contact(firstName, lastName, email, phone, addressLine1, city, postalCode, country))
  }

  function Lookup(data: Mapping, key: string): Value {
    if key in data then data[key] else Null
  }

  /**
   * `data.get("preferences") or {}`: a missing or falsy entry is an empty
   * mapping, any other non-mapping raises, and the two entries are taken
   * as they are (`None` when absent).
   */
  function LoadPreferences(data: Mapping): (r: Result<Preferences, ConfigError>)
    ensures r.Ok? <==> !Truthy(Lookup(data, "preferences")) || Lookup(data, "preferences").Dict?
    ensures r.Ok? && !Truthy(Lookup(data, "preferences")) ==> r.value == Preferences(Null, Null)
    ensures r.Ok? && Truthy(Lookup(data, "preferences")) ==>
      var p := data["preferences"].entries;
      && ("room_type" in p ==> r.value.roomType == p["room_type"])
      && ("room_type" !in p ==> r.value.roomType == Null)
      && ("remarks" in p ==> r.value.remarks == p["remarks"])
      && ("remarks" !in p ==> r.value.remarks == Null)
  {
    var raw := Lookup(data, "preferences");
    var preferences := if Truthy(raw) then raw else Dict(map[]);
    if !preferences.Dict? then Err(PreferencesNotDict)
    else Ok(Preferences(Lookup(preferences.entries, "room_type"), Lookup(preferences.entries, "remarks")))
  }

  /** The two preference entries of a mapping `preferences`; both `None` when it is absent or falsy. */
  predicate PreferencesFrom(data: Mapping, p: Preferences) {
    var raw := Lookup(data, "preferences");
    if Truthy(raw) then
      raw.Dict? && p == Preferences(Lookup(raw.entries, "room_type"), Lookup(raw.entries, "remarks"))
    else
      p == Preferences(Null, Null)
  }

  predicate CountOk(data: Mapping, key: string) {
    key !in data || data[key].Null? || (IntOf(data[key]).Some? && IntOf(data[key]).value >= 0)
  }

  predicate OptionalTextOk(data: Mapping, key: string) {
    key !in data || data[key].Null? || data[key].Str?
  }

  predicate StayAcceptable(data: Mapping) {
    && CountOk(data, "children_count") && CountOk(data, "guides_count")
    && CountOk(data, "vegetarian_count") && CountOk(data, "lunch_packages")
    && OptionalTextOk(data, "group_name") && OptionalTextOk(data, "access_to_hut")
    && OptionalTextOk(data, "allergies") && OptionalTextOk(data, "comments")
  }

  /** An optional count: 0 when absent or `null`, otherwise what `int()` gives. */
  predicate CountFrom(data: Mapping, key: string, n: int) {
    if key !in data || data[key].Null? then n == 0 else IntOf(data[key]) == Some(n)
  }

  /** An optional text: `None` when absent, `null` or blank, otherwise the trimmed string. */
  predicate TextFrom(data: Mapping, key: string, t: Option<string>) {
    if key !in data || data[key].Null? then t == None
    else data[key].Str? && t == (if AllSpace(data[key].s) then None else Some(Strip(data[key].s)))
  }

  predicate StayFrom(data: Mapping, stay: Stay) {
    && CountFrom(data, "children_count", stay.childrenCount)
    && CountFrom(data, "guides_count", stay.guidesCount)
    && CountFrom(data, "vegetarian_count", stay.vegetarianCount)
    && CountFrom(data, "lunch_packages", stay.lunchPackages)
    && TextFrom(data, "group_name", stay.groupName)
    && TextFrom(data, "access_to_hut", stay.accessToHut)
    && TextFrom(data, "allergies", stay.allergies)
    && TextFrom(data, "comments", stay.comments)
  }

  /** The optional stay details: counts default to 0, texts to `None`. */
  function LoadStay(data: Mapping): (r: Result<Stay, ConfigError>)
    ensures r.Ok? <==> StayAcceptable(data)
    ensures r.Ok? ==> StayFrom(data, r.value)
  {
    var childrenCount :- OptionalInt(data, "children_count", 0);
    var guidesCount :- OptionalInt(data, "guides_count", 0);
    var vegetarianCount :- OptionalInt(data, "vegetarian_count", 0);
    var lunchPackages :- OptionalInt(data, "lunch_packages", 0);
    var groupName :- OptionalStr(data, "group_name");
    var accessToHut :- OptionalStr(data, "access_to_hut");
    var allergies :- OptionalStr(data, "allergies");
    var comments :- OptionalStr(data, "comments");
    Ok(Stay(childrenCount, guidesCount, vegetarianCount, lunchPackages,
            groupName, accessToHut, allergies, comments))
  }

  /** `load_config` after the YAML document has been read. */
  function LoadConfig(doc: Value): (r: Result<BookingConfig, ConfigError>)
    ensures r.Ok? <==>
      && doc.Dict? && LoadHeader(doc.entries).Ok? && LoadContact(doc.entries).Ok?
      && LoadPreferences(doc.entries).Ok? && RequireBool(doc.entries, "half_board", "config").Ok?
      && OptionalBool(doc.entries, "allow_alternative_dates", false).Ok? && LoadStay(doc.entries).Ok?
      && "accept_terms" in doc.entries && doc.entries["accept_terms"] == Bool(true)
  {
    if !doc.Dict? then Err(NotAMapping)
    else
      var data := doc.entries;
      var header :- LoadHeader(data);
      var contact :- LoadContact(data);
      var preferences :- LoadPreferences(data);
      var halfBoard :- RequireBool(data, "half_board", "config");
      var allowAlternativeDates :- OptionalBool(data, "allow_alternative_dates", false);
      var stay :- LoadStay(data);
      if "accept_terms" !in data then Err(TermsMissing)
      else if data["accept_terms"] != Bool(true) then Err(TermsNotTrue)
      else
        Ok(BookingConfig(
          header.loginProvider, header.hutName, header.checkIn, header.checkOut, header.partySize,
          contact, preferences, halfBoard, allowAlternativeDates, stay))
  }

  /** Every condition `load_config` imposes, independently of the order it checks them in. */
  predicate Acceptable(doc: Value) {
    && doc.Dict?
    && HeaderAcceptable(doc.entries)
    && ContactAcceptable(doc.entries)
    && (!Truthy(Lookup(doc.entries, "preferences")) || Lookup(doc.entries, "preferences").Dict?)
    && "half_board" in doc.entries && doc.entries["half_board"].Bool?
    && ("allow_alternative_dates" !in doc.entries || doc.entries["allow_alternative_dates"].Bool?)
    && StayAcceptable(doc.entries)
    && "accept_terms" in doc.entries && doc.entries["accept_terms"] == Bool(true)
  }

  /** `load_config` succeeds exactly on the acceptable configurations. */
  lemma LoadConfigSucceedsIff(doc: Value)
    ensures LoadConfig(doc).Ok? <==> Acceptable(doc)
  {
  }

  /**
   * A validated configuration carries the trimmed hut name and dates of the
   * document, a known provider, the party size `int()` gives (at least one),
   * a stay that ends after it starts, the contact, preference and stay
   * entries, the two booleans (alternative dates refused unless given), and
   * the document accepted the terms with `true`.
   */
  lemma LoadConfigAccepted(doc: Value)
    requires LoadConfig(doc).Ok?
    ensures doc.Dict?
    ensures var c := LoadConfig(doc).value; var data := doc.entries;
      && (c.loginProvider == "default" || c.loginProvider == "sac")
      && c.loginProvider == Lower(Strip(data["login_provider"].s))
      && c.hutName == Strip(data["hut_name"].s) && c.hutName != ""
      && c.checkIn == Strip(data["check_in"].s) && c.checkOut == Strip(data["check_out"].s)
      && Before(ParseIsoDate(c.checkIn).value, ParseIsoDate(c.checkOut).value)
      && c.partySize >= 1 && c.partySize == IntOf(data["party_size"]).value
      && data["contact"].Dict? && ContactFrom(data["contact"].entries, c.contact)
      && PreferencesFrom(data, c.preferences)
      && data["half_board"] == Bool(c.halfBoard)
      && (if "allow_alternative_dates" in data then data["allow_alternative_dates"] == Bool(c.allowAlternativeDates)
          else !c.allowAlternativeDates)
      && StayFrom(data, c.stay)
      && data["accept_terms"] == Bool(true)
  {
    var data := doc.entries;
    assert LoadHeader(data).Ok? && LoadContact(data).Ok? && LoadStay(data).Ok?;
  }

  /** The provider is checked first: an unknown one is reported whatever else is wrong. */
  lemma UnknownProviderReportedFirst(data: Mapping)
    requires HasText(data, "login_provider")
    requires Lower(Strip(data["login_provider"].s)) !in {"default", "sac"}
    ensures LoadConfig(Dict(data)) == Err(UnknownLoginProvider)
  {
  }

  /** A missing `accept_terms`, `1` or `"yes"` is refused: only the boolean `true` is accepted. */
  lemma TermsMustBeLiteralTrue(doc: Value)
    requires doc.Dict? && ("accept_terms" !in doc.entries || doc.entries["accept_terms"] != Bool(true))
    ensures LoadConfig(doc).Err?
  {
    LoadConfigSucceedsIff(doc);
  }
}
