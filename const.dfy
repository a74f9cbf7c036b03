/** The integration's constants: query parameters of the city's endpoint, intervals, and the waste-type table. */
module Const {

  const Domain := "wywoz_odpadow"

  const ApiResourceId := "ajaxResource"
  const ApiAutocompleteResourceId := "autocompleteResource"
  const PortletId := "portalCKMjunkschedules_WAR_portalCKMjunkschedulesportlet_INSTANCE_o5AIb2mimbRJ"

  /** The fixed query parameters, given the portlet resource to call. */
  function PortletParams(resourceId: string): (p: map<string, string>)
    ensures p.Keys == {"p_p_id", "p_p_lifecycle", "p_p_state", "p_p_mode", "p_p_resource_id", "p_p_cacheability"}
    ensures p["p_p_resource_id"] == resourceId
  {
    map["p_p_id" := PortletId, "p_p_lifecycle" := "2", "p_p_state" := "normal", "p_p_mode" := "view",
        "p_p_resource_id" := resourceId, "p_p_cacheability" := "cacheLevelPage"]
  }

  /** `API_PARAMS`: the schedule request. */
  const ApiParams: map<string, string> := PortletParams(ApiResourceId)

  /** `API_AUTOCOMPLETE_PARAMS`: the address search request. */
  const ApiAutocompleteParams: map<string, string> := PortletParams(ApiAutocompleteResourceId)

  /** The two parameter sets have the same keys and differ only in the resource id. */
  lemma ApiParamsDifferOnlyInResource()
    ensures ApiParams.Keys == ApiAutocompleteParams.Keys
    ensures forall k :: k in ApiParams && k != "p_p_resource_id" ==> ApiParams[k] == ApiAutocompleteParams[k]
    ensures ApiParams["p_p_resource_id"] == "ajaxResource"
    ensures ApiAutocompleteParams["p_p_resource_id"] == "autocompleteResource"
  {
  }

  const SecondsPerDay := 86400

  /** `DEFAULT_UPDATE_INTERVAL_DAYS`, the interval the setup form proposes. */
  const DefaultUpdateIntervalDays := 1

  /** `DEFAULT_UPDATE_INTERVAL`, in seconds. */
  const DefaultUpdateInterval := 86400

  /** The form accepts update intervals of 1 to 7 days. */
  const MinUpdateIntervalDays := 1
  const MaxUpdateIntervalDays := 7

  lemma DefaultIntervalIsOneDay()
    ensures DefaultUpdateInterval == DefaultUpdateIntervalDays * SecondsPerDay
    ensures MinUpdateIntervalDays <= DefaultUpdateIntervalDays <= MaxUpdateIntervalDays
  {
  }

  /** The waste types `FRACTION_TYPE_MAPPING` can yield. */
  const WasteTypes: set<string> := {"waste", "paper", "recycle", "organic", "others"}

  /** The type given to a fraction name the table does not know. */
  const CustomType := "custom"

  /** `FRACTION_TYPE_MAPPING`: raw (Polish) fraction names as the endpoint sends them. */
  const FractionTypeMapping: map<string, string> := map[
    "zmieszane odpady opakowaniowe" := "waste",
    "niesegregowane (zmieszane) odpady komunalne" := "waste",
    "opakowania z papieru i tektury" := "paper",
    "opakowania ze szkła" := "recycle",
    "odpady ulegające biodegradacji" := "organic",
    "odpady kuchenne ulegające biodegradacji" := "organic",
    "odpady wielkogabarytowe" := "others"
  ]

  /** `FRACTION_TYPE_MAPPING.get(name, "custom")`: an exact, case-sensitive lookup. */
  function WasteTypeOf(rawName: string): (t: string)
    ensures rawName in FractionTypeMapping ==> t == FractionTypeMapping[rawName] && t in WasteTypes
    ensures t == CustomType <==> rawName !in FractionTypeMapping
  {
    if rawName in FractionTypeMapping then FractionTypeMapping[rawName] else CustomType
  }

  /** Every value of the table is one of the five waste types, so "custom" is only ever the fallback. */
  lemma MappingValuesAreWasteTypes()
    ensures forall n :: n in FractionTypeMapping ==> FractionTypeMapping[n] in WasteTypes
    ensures CustomType !in WasteTypes
  {
  }

  /** The lookup is case-sensitive: a capitalised label is not recognised. */
  lemma WasteTypeIsCaseSensitive()
    ensures WasteTypeOf("opakowania ze szkła") == "recycle"
    ensures WasteTypeOf("Opakowania ze szkła") == CustomType
  {
  }
}
