/**
 * The two form handlers of LocationFinderForm that change the form state:
 * validateForm records per-field errors, submitForm stores what is to be
 * displayed below the form and asks for a rebuild. The HTTP request is not
 * modelled; its reply is passed to submitForm already parsed.
 */
module LocationFinderForm {
  import opened Wrappers
  import opened Validation
  import opened Locations

  /**
   * The part of the framework's form state the handlers touch: the submitted
   * values, the error bag, the `yaml_output` slot and the rebuild flag.
   */
  class FormState {
    const values: SearchCriteria
    var errors: map<Field, string>
    var yamlOutput: Option<Outcome>
    var rebuild: bool

    constructor (values: SearchCriteria)
      ensures this.values == values
      ensures errors == map[] && yamlOutput == None && !rebuild
    {
      this.values := values;
      errors := map[];
      yamlOutput := None;
      rebuild := false;
    }

    /** Records `message` against `field` unless that field already has an error. */
    method SetErrorByName(field: Field, message: string)
      modifies this`errors
      ensures errors == if field in old(errors) then old(errors) else old(errors)[field := message]
    {
      if field !in errors {
        errors := errors[field := message];
      }
    }
  }

  /**
   * validateForm: every failing check records its own error, and errors that
   * were already in the bag are left as they were.
   */
  method ValidateForm(formState: FormState)
    modifies formState`errors
    ensures formState.errors.Keys == old(formState.errors.Keys) + InvalidFields(formState.values)
    ensures forall f :: f in old(formState.errors) ==> formState.errors[f] == old(formState.errors[f])
    ensures forall f :: f in InvalidFields(formState.values) && f !in old(formState.errors) ==>
      formState.errors[f] == ErrorMessage(f)
  {
    var values := formState.values;
    if !CountryCodeAccepted(values.countryCode) {
      formState.SetErrorByName(CountryCode, ErrorMessage(CountryCode));
    }
    if !PostalCodeAccepted(values.postalCode) {
      formState.SetErrorByName(PostalCode, ErrorMessage(PostalCode));
    }
    if !CityPatternMatches(values.city) {
      formState.SetErrorByName(City, ErrorMessage(City));
    }
  }

  /** On a form with no earlier errors, validation fails exactly for the invalid fields. */
  method ValidateFreshForm(values: SearchCriteria) returns (errors: map<Field, string>)
    ensures errors.Keys == InvalidFields(values)
    ensures errors == map[] <==>
      (CountryCodeAccepted(values.countryCode) && PostalCodeAccepted(values.postalCode) &&
       CityPatternMatches(values.city))
    ensures forall f :: f in errors ==> errors[f] == ErrorMessage(f)
  {
    var formState := new FormState(values);
    ValidateForm(formState);
    errors := formState.errors;
    assert errors == map[] <==> errors.Keys == {};
  }

  /**
   * The filtering and outcome part of submitForm, given the status and the
   * parsed records of the lookup service's reply.
   */
  method SubmitForm(formState: FormState, response: Response)
    modifies formState`yamlOutput, formState`rebuild
    ensures response.status != 200 ==> formState.yamlOutput == Some(UpstreamError)
    ensures response.status == 200 && Kept(response.locations) == [] ==>
      formState.yamlOutput == Some(NoMatches)
    ensures response.status == 200 && Kept(response.locations) != [] ==>
      formState.yamlOutput == Some(Results(Kept(response.locations)))
    ensures formState.rebuild
  {
    if response.status == 200 {
      var filteredLocations := FilterLocations(response.locations);
      if filteredLocations != [] {
        formState.yamlOutput := Some(Results(filteredLocations));
      } else {
        formState.yamlOutput := Some(NoMatches);
      }
    } else {
      formState.yamlOutput := Some(UpstreamError);
    }
    formState.rebuild := true;
  }

  /** The outcome of one lookup, as SubmitForm leaves it on a fresh form. */
  method Lookup(values: SearchCriteria, response: Response) returns (outcome: Outcome)
    ensures outcome.UpstreamError? <==> response.status != 200
    ensures outcome.NoMatches? <==> response.status == 200 && Kept(response.locations) == []
    ensures outcome.Results? <==> response.status == 200 && Kept(response.locations) != []
    ensures outcome.Results? ==> outcome.locations == Kept(response.locations) && outcome.locations != []
  {
    var formState := new FormState(values);
    SubmitForm(formState, response);
    outcome := formState.yamlOutput.value;
  }

  // ---------------------------------------------------------------------
  // The request as written: the HTTP client keeps its default options

  /** What the HTTP client hands back to submitForm: the reply, or an exception. */
  datatype Transfer = Delivered(response: Response) | Raised

  /**
   * The client's default error handling: a reply with status 400 or above is
   * turned into an exception instead of being returned.
   */
  function Send(response: Response): (t: Transfer)
    ensures t.Raised? <==> response.status >= 400
    ensures t.Delivered? ==> t.response == response
  {
    if response.status >= 400 then Raised else Delivered(response)
  }

  /**
   * submitForm as written: a 4xx or 5xx reply raises out of the handler
   * before the status test, so nothing is stored and no rebuild is asked for;
   * every other reply is handled as SubmitForm does.
   */
  method SubmitFormAsWritten(formState: FormState, response: Response) returns (raised: bool)
    modifies formState`yamlOutput, formState`rebuild
    ensures raised <==> response.status >= 400
    ensures raised ==> formState.yamlOutput == old(formState.yamlOutput) && formState.rebuild == old(formState.rebuild)
    ensures !raised && response.status != 200 ==> formState.yamlOutput == Some(UpstreamError)
    ensures !raised && response.status == 200 && Kept(response.locations) == [] ==>
      formState.yamlOutput == Some(NoMatches)
    ensures !raised && response.status == 200 && Kept(response.locations) != [] ==>
      formState.yamlOutput == Some(Results(Kept(response.locations)))
    ensures !raised ==> formState.rebuild
  {
    match Send(response)
    case Raised =>
      raised := true;
    case Delivered(reply) =>
      raised := false;
      SubmitForm(formState, reply);
  }

  /** A server error as written: the handler raises and the form is left with nothing to show. */
  method ServerErrorShowsNothing(values: SearchCriteria) returns (raised: bool, shown: Option<Outcome>)
    ensures raised && shown == None
  {
    var formState := new FormState(values);
    raised := SubmitFormAsWritten(formState, Response(500, []));
    shown := formState.yamlOutput;
  }

  /** The same server error once every reply reaches the status test: the error message is shown. */
  method ServerErrorReported(values: SearchCriteria) returns (shown: Outcome)
    ensures shown == UpstreamError
  {
    shown := Lookup(values, Response(500, []));
  }
}
