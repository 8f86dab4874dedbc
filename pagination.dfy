/** The pagination query of the `/questions` route (src/types/pagination.rs):
    the two query keys are `start` and `end`. */
module QueryPagination {
  import opened Wrappers
  import opened IntParse
  import opened Errors

  /** `limit` comes from `start`, `offset` from `end`. */
  datatype Pagination = Pagination(limit: Option<u32>, offset: u32)

  /** `extract_pagination`: both keys must be present; `start` is parsed
      first, then `end`, and the first parse failure is returned. */
  function ExtractPagination(params: map<string, string>): (r: Result<Pagination, Error>)
    // a missing key is reported as such, whatever the other value holds
    ensures ("start" !in params || "end" !in params) <==> r == Err(MissingParameters)
    // success exactly when both values are u32 literals, with their values
    ensures r.Ok? <==>
      "start" in params && "end" in params
      && Accepts(params["start"], U32_MAX) && Accepts(params["end"], U32_MAX)
    ensures r.Ok? ==>
      && r.value.limit.Some?
      && r.value.limit.value as int == Magnitude(params["start"])
      && r.value.offset as int == Magnitude(params["end"])
    // a bad `start` is reported whatever `end` holds
    ensures "start" in params && "end" in params && ParseU32(params["start"]).Err? ==>
      r == Err(ParseError(ParseU32(params["start"]).error))
    // a bad `end` is reported only after `start` parsed
    ensures ("start" in params && "end" in params && ParseU32(params["start"]).Ok?
             && ParseU32(params["end"]).Err?) ==>
      r == Err(ParseError(ParseU32(params["end"]).error))
  {
    if "start" in params && "end" in params then
      var limit :- ParseU32(params["start"]).MapErr(e => ParseError(e));
      var offset :- ParseU32(params["end"]).MapErr(e => ParseError(e));
      Ok(Pagination(Some(limit), offset))
    else
      Err(MissingParameters)
  }

  /** Only the entries for `start` and `end` matter. */
  lemma ExtractIgnoresOtherKeys(params: map<string, string>, other: map<string, string>)
    requires forall k | k in {"start", "end"} :: (k in params <==> k in other)
    requires forall k | k in {"start", "end"} && k in params :: params[k] == other[k]
    ensures ExtractPagination(params) == ExtractPagination(other)
  {
  }

  /** The query that renders a parsed pagination's values in decimal parses back to it. */
  lemma ExtractRoundTrip(params: map<string, string>)
    requires ExtractPagination(params).Ok?
    ensures var p := ExtractPagination(params).value;
      ExtractPagination(map["start" := ToDecimal(p.limit.value as nat), "end" := ToDecimal(p.offset as nat)])
        == Ok(p)
  {
    var p := ExtractPagination(params).value;
    ParseU32ToDecimal(p.limit.value);
    ParseU32ToDecimal(p.offset);
  }

  /** Worked cases: a missing key, a well-formed query, and non-numeric text. */
  lemma {:induction false} ExtractExamples()
    ensures ExtractPagination(map[]) == Err(MissingParameters)
    ensures ExtractPagination(map["start" := "1"]) == Err(MissingParameters)
    ensures ExtractPagination(map["start" := "1", "end" := "10"]) == Ok(Pagination(Some(1), 10))
    ensures ExtractPagination(map["start" := "NOT_A_NUMBER", "end" := "1"])
      == Err(ParseError(ParseIntError(InvalidDigit)))
    ensures Description(ExtractPagination(map["start" := "NOT_A_NUMBER", "end" := "1"]).error.cause.kind)
      == "invalid digit found in string"
  {
  }
}
