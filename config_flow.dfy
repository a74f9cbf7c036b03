/**
 * The setup wizard: the postal-code step, the address search, the address step and the
 * check of the chosen address against the schedule endpoint. HTTP responses are inputs.
 */
module SetupWizard {
  import opened Wrappers
  import opened Text
  import opened Const
  import opened Schedule
  import opened Coordinator

  // ---------------------------------------------------------------------------------------
  // Responses

  /**
   * What reading a response body gave: `response.json()` succeeded; it raised
   * `ContentTypeError`, and then the body text and what `json.loads` of it would give
   * (`None` when it raises); or it raised anything else.
   */
  datatype Body<T> = Parsed(value: T) | WrongContentType(text: string, manual: Option<T>) | Unparsable

  /** An HTTP exchange: a status and a body, or an exception from the transport with its message. */
  datatype Response<T> = Response(status: int, body: Body<T>) | TransportError(message: string)

  const InvalidJson := "API returned invalid JSON response. This may indicate an invalid address_point_id."
  const HtmlInsteadOfJson := "API returned HTML instead of JSON. This may indicate an invalid address_point_id or API endpoint issue."

  /** After `strip()`, the text starts with `[` or `{`. */
  predicate LooksLikeJson(text: string)
  {
    var t := Strip(text);
    t != [] && (t[0] == '[' || t[0] == '{')
  }

  /** The parse with the fallback on a wrong content type: only a body that looks like JSON is parsed by hand. */
  function ReadJson<T>(body: Body<T>): (r: Result<T, string>)
    ensures body.Parsed? ==> r == Success(body.value)
    ensures body.Unparsable? ==> r == Failure(InvalidJson)
    ensures body.WrongContentType? && !LooksLikeJson(body.text) ==> r == Failure(HtmlInsteadOfJson)
    ensures body.WrongContentType? && LooksLikeJson(body.text) ==>
      r == (if body.manual.Some? then Success(body.manual.value) else Failure(InvalidJson))
  {
    match body
    case Parsed(v) => Success(v)
    case WrongContentType(text, manual) =>
      if !LooksLikeJson(text) then Failure(HtmlInsteadOfJson)
      else if manual.None? then Failure(InvalidJson)
      else Success(manual.value)
    case Unparsable => Failure(InvalidJson)
  }

  /** Text that does not look like JSON is never parsed, whatever `json.loads` would make of it. */
  lemma NonJsonTextIsNotParsed<T>(text: string, a: Option<T>, b: Option<T>)
    requires !LooksLikeJson(text)
    ensures ReadJson(WrongContentType(text, a)) == ReadJson(WrongContentType(text, b))
    ensures ReadJson(WrongContentType(text, a)).Failure?
  {
  }

  /** Leading blanks do not matter: a body is read only when its first other character opens an array or object. */
  lemma LooksLikeJsonSkipsWhitespace(ws: string, rest: string)
    requires AllIn(ws, Whitespace)
    requires rest != [] && rest[0] !in Whitespace && rest[|rest| - 1] !in Whitespace
    ensures LooksLikeJson(ws + rest) <==> rest[0] == '[' || rest[0] == '{'
  {
    StripLeadingPadded(ws, rest, Whitespace);
    StripCharsOfStripped(rest, Whitespace);
  }

  lemma {:induction false} StripLeadingPadded(ws: string, rest: string, chars: set<char>)
    requires AllIn(ws, chars) && (rest == [] || rest[0] !in chars)
    ensures StripLeading(ws + rest, chars) == StripLeading(rest, chars)
    decreases |ws|
  {
    if ws == [] {
      assert ws + rest == rest;
    } else {
      assert (ws + rest)[0] == ws[0];
      assert (ws + rest)[1..] == ws[1..] + rest;
      StripLeadingPadded(ws[1..], rest, chars);
    }
  }

  // ---------------------------------------------------------------------------------------
  // Address search

  /** One element of the search result, as the address step reads it. */
  datatype AddressRecord = AddressRecord(addressPointId: string, fullName: string)

  /** The parsed search body: a list of address records, or any other JSON value. */
  datatype SearchJson = AddressList(records: seq<AddressRecord>) | NotAnAddressList

  const NameParam := "_" + PortletId + "_name"
  const AddressPointParam := "_" + PortletId + "_addressPointId"

  /** `postal_code.replace("-", "")`. */
  function RemoveDashes(s: string): (r: string)
    ensures forall i :: 0 <= i < |r| ==> r[i] != '-'
    ensures |r| <= |s|
  {
    if s == [] then [] else (if s[0] == '-' then [] else [s[0]]) + RemoveDashes(s[1..])
  }

  /** Text without a dash is left as it is. */
  lemma {:induction false} RemoveDashesWithoutDash(s: string)
    requires '-' !in s
    ensures RemoveDashes(s) == s
  {
    if s != [] {
      assert s[0] in s;
      assert '-' !in s[1..] by {
        forall i | 0 <= i < |s[1..]| ensures s[1..][i] != '-' {
          assert s[1..][i] == s[i + 1];
        }
      }
      RemoveDashesWithoutDash(s[1..]);
    }
  }

  /** Removing the dashes of two pieces is removing them piece by piece, so the kept characters stay in order. */
  lemma {:induction false} RemoveDashesConcat(a: string, b: string)
    ensures RemoveDashes(a + b) == RemoveDashes(a) + RemoveDashes(b)
  {
    if a == [] {
      assert a + b == b;
    } else {
      assert (a + b)[0] == a[0] && (a + b)[1..] == a[1..] + b;
      RemoveDashesConcat(a[1..], b);
    }
  }

  /** Every character other than `-` is kept, as often as it occurs. */
  lemma {:induction false} RemoveDashesCounts(s: string)
    ensures multiset(RemoveDashes(s)) == multiset(s)['-' := 0]
  {
    if s != [] {
      RemoveDashesCounts(s[1..]);
      assert s == [s[0]] + s[1..];
    }
  }

  /** The search request's parameters: the filter is added only for a non-empty postal code. */
  function SearchParams(postalCode: string): (p: map<string, string>)
    ensures NameParam in p <==> postalCode != ""
    ensures forall k :: k in ApiAutocompleteParams ==> k in p && p[k] == ApiAutocompleteParams[k]
    ensures p.Keys <= ApiAutocompleteParams.Keys + {NameParam}
  {
    if postalCode == "" then ApiAutocompleteParams
    else ApiAutocompleteParams[NameParam := RemoveDashes(postalCode)]
  }

  /** The schedule request's parameters for one address point. */
  function ScheduleParams(addressPointId: int): (p: map<string, string>)
    ensures p.Keys == ApiParams.Keys + {AddressPointParam}
    ensures ParseInt(p[AddressPointParam]) == Some(addressPointId)
  {
    ParseIntOfIntToString(addressPointId);
    ApiParams[AddressPointParam := IntToString(addressPointId)]
  }

  /** `search_addresses`: the list the endpoint returned, and `[]` on any failure. */
  function SearchAddresses(response: Response<SearchJson>): (r: seq<AddressRecord>)
    ensures r != [] ==> response.Response? && response.status == 200
    ensures r != [] ==> ReadJson(response.body) == Success(AddressList(r))
  {
    if response.TransportError? || response.status != 200 then []
    else match ReadJson(response.body)
      case Failure(_) => []
      case Success(json) => if json.AddressList? then json.records else []
  }

  /** Search never fails: every failure gives an empty list. */
  lemma SearchFailuresAreEmpty(response: Response<SearchJson>)
    requires || response.TransportError?
             || response.status != 200
             || ReadJson(response.body).Failure?
             || ReadJson(response.body).value.NotAnAddressList?
    ensures SearchAddresses(response) == []
  {
  }

  /** A readable list comes back unchanged. */
  lemma SearchReturnsList(records: seq<AddressRecord>, body: Body<SearchJson>)
    requires ReadJson(body) == Success(AddressList(records))
    ensures SearchAddresses(Response(200, body)) == records
  {
  }

  // ---------------------------------------------------------------------------------------
  // Postal code

  /** `^\d{2}-\d{3}$`: two digits, a dash, three digits. */
  predicate IsPostalCode(s: string)
  {
    |s| == 6 && IsDigit(s[0]) && IsDigit(s[1]) && s[2] == '-' && IsDigit(s[3]) && IsDigit(s[4]) && IsDigit(s[5])
  }

  /** The user step's check on the stripped input: `"required"`, `"invalid_format"`, or the code to store. */
  function ValidatePostalCode(input: Option<string>): (r: Result<string, string>)
    ensures r.Success? <==> IsPostalCode(Strip(input.GetOr("")))
    ensures r.Success? ==> r.value == Strip(input.GetOr(""))
    ensures r.Failure? ==> (r.error == "required" <==> Strip(input.GetOr("")) == "")
    ensures r.Failure? ==> r.error in {"required", "invalid_format"}
  {
    var postalCode := Strip(input.GetOr(""));
    if postalCode == "" then Failure("required")
    else if !IsPostalCode(postalCode) then Failure("invalid_format")
    else Success(postalCode)
  }

  /** A stored postal code passes the check again unchanged. */
  lemma StoredPostalCodeRevalidates(input: Option<string>)
    requires ValidatePostalCode(input).Success?
    ensures ValidatePostalCode(Some(ValidatePostalCode(input).value)) == ValidatePostalCode(input)
  {
    StripIdempotent(input.GetOr(""), Whitespace);
  }

  /** A stored postal code filters the search by its five digits. */
  lemma StoredPostalCodeFilter(code: string)
    requires IsPostalCode(code)
    ensures NameParam in SearchParams(code)
    ensures var f := SearchParams(code)[NameParam];
      f == [code[0], code[1], code[3], code[4], code[5]] && |f| == 5 && AllDigits(f)
  {
    PostalCodeDigits(code);
  }

  /** The dash of a postal code is its only dash. */
  lemma PostalCodeDigits(code: string)
    requires IsPostalCode(code)
    ensures RemoveDashes(code) == [code[0], code[1], code[3], code[4], code[5]]
  {
    var a, c := [code[0], code[1]], [code[3], code[4], code[5]];
    assert '-' !in a && '-' !in c;
    assert code == a + ("-" + c);
    DashBetween(a, c);
    assert a + c == [code[0], code[1], code[3], code[4], code[5]];
  }

  /** One dash between two dash-free pieces is removed and the pieces are kept. */
  lemma DashBetween(a: string, c: string)
    requires '-' !in a && '-' !in c
    ensures RemoveDashes(a + ("-" + c)) == a + c
  {
    RemoveDashesWithoutDash(a);
    RemoveDashesWithoutDash(c);
    assert RemoveDashes("-" + c) == RemoveDashes(c) by {
      assert ("-" + c)[0] == '-' && ("-" + c)[1..] == c;
    }
    RemoveDashesConcat(a, "-" + c);
  }


  // ---------------------------------------------------------------------------------------
  // Address options

  /** `{addr["addressPointId"]: addr for addr in addresses}`: a later duplicate replaces an earlier one. */
  function OptionsById(addresses: seq<AddressRecord>): (options: map<string, AddressRecord>)
    ensures forall id :: id in options <==> exists i :: 0 <= i < |addresses| && addresses[i].addressPointId == id
    ensures forall id :: id in options ==> options[id].addressPointId == id
  {
    if addresses == [] then map[]
    else
      var last := addresses[|addresses| - 1];
      var prefix := addresses[..|addresses| - 1];
      var options := OptionsById(prefix);
      assert forall i :: 0 <= i < |prefix| ==> prefix[i] == addresses[i];
      options[last.addressPointId := last]
  }

  /** An id's option is its last record. */
  lemma {:induction false} OptionsLastWins(addresses: seq<AddressRecord>, i: nat)
    requires i < |addresses|
    requires forall j :: i < j < |addresses| ==> addresses[j].addressPointId != addresses[i].addressPointId
    ensures OptionsById(addresses)[addresses[i].addressPointId] == addresses[i]
    decreases |addresses|
  {
    var n := |addresses| - 1;
    if i < n {
      var prefix := addresses[..n];
      assert prefix[i] == addresses[i];
      forall j | i < j < |prefix|
        ensures prefix[j].addressPointId != prefix[i].addressPointId
      {
        assert prefix[j] == addresses[j];
      }
      OptionsLastWins(prefix, i);
    }
  }

  /** The dropdown label of an address: `f"{fullName} ({id})"`. */
  function Label(id: string, address: AddressRecord): string
  {
    address.fullName + " (" + id + ")"
  }

  /** `address_options_dict`: one label per option. */
  function Labels(options: map<string, AddressRecord>): (labels: map<string, string>)
    ensures labels.Keys == options.Keys
    ensures forall id :: id in labels ==> labels[id] == Label(id, options[id])
  {
    map id | id in options :: Label(id, options[id])
  }

  /** Every label ends with its id in parentheses, so distinct ids give distinct labels when the names agree. */
  lemma LabelEndsWithId(id: string, address: AddressRecord)
    ensures var l := Label(id, address);
      |l| >= |id| + 3 && l[|l| - |id| - 3..] == " (" + id + ")"
  {
  }

  // ---------------------------------------------------------------------------------------
  // Selection and validation

  /** The flow's exceptions: `CannotConnect`, `InvalidData` with its first argument, and any other. */
  datatype FlowError = CannotConnect(message: string) | InvalidData(message: string) | Unexpected

  /** The error code shown for an exception caught in the address step. */
  function ErrorCode(e: FlowError): (code: string)
    ensures code in {"cannot_connect", "no_schedule_found", "invalid_data", "unknown"}
    ensures code == "no_schedule_found" <==> e == InvalidData("no_schedule_found")
    ensures code == "cannot_connect" <==> e.CannotConnect?
    ensures code == "unknown" <==> e.Unexpected?
  {
    match e
    case CannotConnect(_) => "cannot_connect"
    case InvalidData(m) => if m == "no_schedule_found" then "no_schedule_found" else "invalid_data"
    case Unexpected => "unknown"
  }

  const NoScheduleFound := "no_schedule_found"

  /** Lines 170-190 of `validate_input`: the shape of the parsed schedule, and the address name. */
  function ClassifySchedule(json: Json, addressPointId: int): (r: Result<string, FlowError>)
    ensures json.NotAList? || json.entries == [] ==> r == Failure(InvalidData(InvalidFormat))
    ensures json.JsonList? && json.entries != [] && ItemsOf(json.entries[0]) == [] ==> r == Failure(InvalidData(NoScheduleFound))
    ensures r.Success? <==> json.JsonList? && json.entries != [] && ItemsOf(json.entries[0]) != []
  {
    if json.NotAList? || json.entries == [] then Failure(InvalidData(InvalidFormat))
    else if ItemsOf(json.entries[0]) == [] then Failure(InvalidData(NoScheduleFound))
    else Success(json.entries[0].adres.GetOr("Address " + IntToString(addressPointId)))
  }

  /** A list whose first entry has items names the entry; the default name is used only when `adres` is absent, and an empty `adres` is kept. */
  lemma AddressNameDefault(json: Json, addressPointId: int)
    requires json.JsonList? && json.entries != [] && ItemsOf(json.entries[0]) != []
    ensures ClassifySchedule(json, addressPointId).Success?
    ensures var name := ClassifySchedule(json, addressPointId).value;
      && (json.entries[0].adres.Some? ==> name == json.entries[0].adres.value)
      && (json.entries[0].adres.None? ==> name == "Address " + IntToString(addressPointId))
  {
  }

  /**
   * `validate_input`. A non-200 status raises `CannotConnect` inside the `try`, so the
   * final handler re-raises it with its message prefixed; `InvalidData` passes through.
   */
  function ValidateInput(response: Response<Json>, addressPointId: int): (r: Result<string, FlowError>)
    ensures response.TransportError? ==> r.Failure? && r.error.CannotConnect?
    ensures response.Response? && response.status != 200 ==> r.Failure? && r.error.CannotConnect?
    ensures r.Failure? && r.error.InvalidData? ==> response.Response? && response.status == 200
    ensures response.Response? && response.status == 200 && ReadJson(response.body).Failure? ==>
      r == Failure(InvalidData(ReadJson(response.body).error))
    ensures response.Response? && response.status == 200 && ReadJson(response.body).Success? ==>
      r == ClassifySchedule(ReadJson(response.body).value, addressPointId)
  {
    match response
    case TransportError(message) => Failure(CannotConnect(message))
    case Response(status, body) =>
      if status != 200 then Failure(CannotConnect(UnexpectedPrefix + "API returned status " + IntToString(status)))
      else match ReadJson(body)
        case Failure(message) => Failure(InvalidData(message))
        case Success(json) => ClassifySchedule(json, addressPointId)
  }

  /** The validation never reports `unknown`, and reports `no_schedule_found` exactly for an entry without items. */
  lemma ValidationErrorCodes(response: Response<Json>, addressPointId: int)
    requires ValidateInput(response, addressPointId).Failure?
    ensures ErrorCode(ValidateInput(response, addressPointId).error) != "unknown"
    ensures ErrorCode(ValidateInput(response, addressPointId).error) == "no_schedule_found"
        <==> && response.Response? && response.status == 200
             && ReadJson(response.body).Success?
             && var json := ReadJson(response.body).value;
                json.JsonList? && json.entries != [] && ItemsOf(json.entries[0]) == []
  {
    var e := ValidateInput(response, addressPointId).error;
    if e == InvalidData(NoScheduleFound) {
      assert response.Response? && response.status == 200;
      assert e != InvalidData(InvalidFormat);
      assert InvalidJson != NoScheduleFound && HtmlInsteadOfJson != NoScheduleFound;
    }
  }

  /** What the address step does with the selected id. */
  datatype Selection = SelectionMissing | SelectionUnknown | Selected(id: string)

  /** Lines 294-302: an empty selection, one that is not an option, or one to validate. */
  function CheckSelection<V>(input: Option<string>, options: map<string, V>): (s: Selection)
    ensures s == SelectionMissing <==> Strip(input.GetOr("")) == ""
    ensures s.Selected? ==> s.id == Strip(input.GetOr("")) && s.id in options
    ensures s == SelectionUnknown <==> Strip(input.GetOr("")) != "" && Strip(input.GetOr("")) !in options
  {
    var selected := Strip(input.GetOr(""));
    if selected == "" then SelectionMissing
    else if selected !in options then SelectionUnknown
    else Selected(selected)
  }

  /** The data of a created entry. */
  datatype EntryData = EntryData(title: string, addressPointId: int, updateInterval: int)

  /** Lines 303-340 for a known id: `int()` of the id, the validation, and the entry or the error code. */
  function Submit(id: string, days: int, response: Response<Json>): (r: Result<EntryData, string>)
    requires MinUpdateIntervalDays <= days <= MaxUpdateIntervalDays
    ensures r.Success? ==> ParseInt(id) == Some(r.value.addressPointId)
    ensures r.Success? ==> r.value.updateInterval == days * SecondsPerDay
    ensures r.Success? ==> ValidateInput(response, r.value.addressPointId) == Success(r.value.title)
    ensures ParseInt(id).None? ==> r == Failure("unknown")
    ensures ParseInt(id).Some? && ValidateInput(response, ParseInt(id).value).Failure? ==>
      r == Failure(ErrorCode(ValidateInput(response, ParseInt(id).value).error))
    ensures ParseInt(id).Some? && ValidateInput(response, ParseInt(id).value).Success? ==>
      r == Success(EntryData(ValidateInput(response, ParseInt(id).value).value, ParseInt(id).value, days * SecondsPerDay))
  {
    var seconds := days * SecondsPerDay;
    match ParseInt(id)
    case None => Failure("unknown")
    case Some(n) =>
      match ValidateInput(response, n)
      case Failure(e) => Failure(ErrorCode(e))
      case Success(name) => Success(EntryData(name, n, seconds))
  }

  /** The stored interval is a whole number of days, from one day to a week. */
  lemma SubmittedInterval(id: string, days: int, response: Response<Json>)
    requires MinUpdateIntervalDays <= days <= MaxUpdateIntervalDays && Submit(id, days, response).Success?
    ensures var s := Submit(id, days, response).value.updateInterval;
      86400 <= s <= 604800 && s % SecondsPerDay == 0 && s / SecondsPerDay == days
  {
    WholeDays(days);
  }

  lemma WholeDays(days: int)
    requires 1 <= days <= 7
    ensures var s := days * 86400; 86400 <= s <= 604800 && s % 86400 == 0 && s / 86400 == days
  {
  }

  // ---------------------------------------------------------------------------------------
  // The wizard

  /** What a step returns: its form again, with errors, or the created entry. */
  datatype FlowResult = ShowForm(stepId: string, errors: map<string, string>) | CreateEntry(entry: EntryData)

  /** The user's answers to the address form. */
  datatype AddressInput = AddressInput(address: Option<string>, updateIntervalDays: int)

  /** The errors the address step starts with: `no_addresses` when a first visit's search finds nothing. */
  function SearchErrors(firstVisit: bool, addresses: seq<AddressRecord>): (errors: map<string, string>)
    ensures "base" in errors <==> firstVisit && addresses == []
    ensures "base" in errors ==> errors == map["base" := "no_addresses"]
    ensures "base" !in errors ==> errors == map[]
  {
    if firstVisit && addresses == [] then map["base" := "no_addresses"] else map[]
  }

  /** The wizard's state across steps. */
  class ConfigFlow {
    var postalCode: string
    var addressOptions: map<string, AddressRecord>
    var addressOptionsDict: map<string, string>

    /** The dropdown has one label per option. */
    ghost predicate Valid()
      reads this
    {
      addressOptionsDict == Labels(addressOptions)
    }

    constructor()
      ensures Valid()
      ensures postalCode == "" && addressOptions == map[] && addressOptionsDict == map[]
    {
      postalCode := "";
      addressOptions := map[];
      addressOptionsDict := map[];
    }

    /**
     * `async_step_user`. A valid code is stored and `async_step_address()` follows without
     * input: the search, answered by `search`, and then the address form.
     */
    method StepUser(userInput: Option<Option<string>>, search: Response<SearchJson>) returns (result: FlowResult)
      requires Valid()
      modifies this
      ensures Valid()
      ensures userInput.None? ==> result == ShowForm("user", map[]) && unchanged(this)
      ensures userInput.Some? && ValidatePostalCode(userInput.value).Failure? ==>
        result == ShowForm("user", map["postal_code" := ValidatePostalCode(userInput.value).error]) && unchanged(this)
      ensures userInput.Some? && ValidatePostalCode(userInput.value).Success? ==>
        && postalCode == ValidatePostalCode(userInput.value).value
        && result == ShowForm("address", SearchErrors(old(addressOptionsDict) == map[], SearchAddresses(search)))
      ensures userInput.Some? && ValidatePostalCode(userInput.value).Success? && old(addressOptionsDict) != map[] ==>
        addressOptions == old(addressOptions) && addressOptionsDict == old(addressOptionsDict)
      ensures userInput.Some? && ValidatePostalCode(userInput.value).Success? && old(addressOptionsDict) == map[] ==>
        addressOptions == (if SearchAddresses(search) != [] then OptionsById(SearchAddresses(search)) else old(addressOptions))
    {
      if userInput.None? {
        return ShowForm("user", map[]);
      }
      match ValidatePostalCode(userInput.value)
      case Failure(error) =>
        result := ShowForm("user", map["postal_code" := error]);
      case Success(code) =>
        postalCode := code;
        var errors := LoadOptions(search);
        result := ShowForm("address", errors);
    }

    /** Lines 278-291 of `async_step_address`: the search and the options, on the first visit only. */
    method LoadOptions(search: Response<SearchJson>) returns (errors: map<string, string>)
      requires Valid()
      modifies this
      ensures Valid() && postalCode == old(postalCode)
      ensures errors == SearchErrors(old(addressOptionsDict) == map[], SearchAddresses(search))
      ensures old(addressOptionsDict) != map[] ==>
        addressOptions == old(addressOptions) && addressOptionsDict == old(addressOptionsDict)
      ensures old(addressOptionsDict) == map[] ==>
        addressOptions == (if SearchAddresses(search) != [] then OptionsById(SearchAddresses(search)) else old(addressOptions))
    {
      errors := map[];
      if addressOptionsDict == map[] {
        var addresses := SearchAddresses(search);
        if addresses != [] {
          addressOptions := OptionsById(addresses);
          addressOptionsDict := Labels(addressOptions);
        } else {
          errors := errors["base" := "no_addresses"];
        }
      }
    }

    /** `async_step_address`: the search on the first visit, then the selection and its validation. */
    method StepAddress(userInput: Option<AddressInput>, search: Response<SearchJson>, schedule: Response<Json>)
      returns (result: FlowResult)
      requires Valid()
      requires userInput.Some? ==> MinUpdateIntervalDays <= userInput.value.updateIntervalDays <= MaxUpdateIntervalDays
      modifies this
      ensures Valid() && postalCode == old(postalCode)
      ensures old(addressOptionsDict) != map[] ==>
        addressOptions == old(addressOptions) && addressOptionsDict == old(addressOptionsDict)
      ensures old(addressOptionsDict) == map[] ==>
        addressOptions == (if SearchAddresses(search) != [] then OptionsById(SearchAddresses(search)) else old(addressOptions))
      ensures userInput.None? ==>
        result == ShowForm("address", SearchErrors(old(addressOptionsDict) == map[], SearchAddresses(search)))
      ensures userInput.Some? && CheckSelection(userInput.value.address, addressOptions) == SelectionMissing ==>
        result == ShowForm("address", SearchErrors(old(addressOptionsDict) == map[], SearchAddresses(search))["address" := "required"])
      ensures userInput.Some? && CheckSelection(userInput.value.address, addressOptions) == SelectionUnknown ==>
        result == ShowForm("address", SearchErrors(old(addressOptionsDict) == map[], SearchAddresses(search))["address" := "invalid_selection"])
      ensures userInput.Some? && CheckSelection(userInput.value.address, addressOptions).Selected? ==>
        var submitted := Submit(CheckSelection(userInput.value.address, addressOptions).id, userInput.value.updateIntervalDays, schedule);
        && (submitted.Success? ==> result == CreateEntry(submitted.value))
        && (submitted.Failure? ==> result == ShowForm("address", map["base" := submitted.error]))
    {
      var errors := LoadOptions(search);
      if userInput.Some? {
        match CheckSelection(userInput.value.address, addressOptions)
        case SelectionMissing =>
          errors := errors["address" := "required"];
        case SelectionUnknown =>
          errors := errors["address" := "invalid_selection"];
        case Selected(id) =>
          match Submit(id, userInput.value.updateIntervalDays, schedule)
          case Success(entry) =>
            return CreateEntry(entry);
          case Failure(code) =>
            errors := errors["base" := code];
      }
      result := ShowForm("address", errors);
    }
  }
}
