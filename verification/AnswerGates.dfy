/** A parsed model answer and the gates it has to pass, shared by the interactive and batch paths. */
module AnswerGates {
  import opened Common

  datatype Candidate = Candidate(summary: string, businessRisk: string, citedFields: seq<Option<string>>,
                                 grounded: bool)

  const MAX_SUMMARY_CHARS := 4000
  const MAX_BUSINESS_RISK_CHARS := 4000

  /** Schema parsing, the leak-marker search and the denylist are whatever they are; the
      business rules are concrete. */
  datatype Gates = Gates(
    parse: string -> Option<Candidate>,
    allowedFields: Option<set<string>>,
    leaks: Candidate -> bool,
    dangerous: Candidate -> Option<string>)

  predicate BusinessRulesHold(g: Gates, c: Candidate) {
    && |c.summary| <= MAX_SUMMARY_CHARS
    && |c.businessRisk| <= MAX_BUSINESS_RISK_CHARS
    && (g.allowedFields.Some? ==>
          forall i :: 0 <= i < |c.citedFields| && c.citedFields[i].Some? ==>
                c.citedFields[i].value in g.allowedFields.value)
  }
}
