/** Test scenarios for forecasters: each scenario carries tags (univariate
    target or not, forecasting horizon passed in fit or later, missing values
    or not) and the argument names of its fit and predict calls; a scenario
    applies to a forecaster unless the forecaster's tags rule it out. */
module ForecastingScenarios {
  import opened Outcome

  /** The forecaster tags the applicability rule reads. */
  datatype ForecasterTags = ForecasterTags(scitypeY: string, requiresFhInFit: bool, handlesMissingData: bool)

  /** The value a scenario is checked against: a forecaster class or
      instance with its tags, a class that is not a forecaster, or any other
      value (neither a forecaster instance nor a class). */
  datatype Candidate =
    | ForecasterClass(tags: ForecasterTags)
    | ForecasterInstance(tags: ForecasterTags)
    | OtherClass
    | OtherValue

  predicate IsForecaster(obj: Candidate) {
    obj.ForecasterClass? || obj.ForecasterInstance?
  }

  /** issubclass on a value that is not a class (TypeError), or a scenario
      tag that is not set (ValueError from get_tag). */
  datatype ScenarioError = NotAClass | MissingTag(tag: string)

  /** A scenario: its own tags, and the argument names of fit and predict. */
  datatype Scenario = Scenario(name: string, ownTags: map<string, bool>, fitArgs: set<string>, predictArgs: set<string>)

  /** The tags every forecasting scenario inherits. */
  const DefaultTags: map<string, bool> := map["has_nans" := false]

  /** The scenario's tags: its own tags override the inherited defaults. */
  function Tags(s: Scenario): map<string, bool> {
    DefaultTags + s.ownTags
  }

  function GetTag(s: Scenario, tag: string): (r: Result<bool, ScenarioError>)
    ensures r.Err? <==> tag !in s.ownTags && tag != "has_nans"
    ensures tag in s.ownTags ==> r == Ok(s.ownTags[tag])
    ensures tag == "has_nans" && tag !in s.ownTags ==> r == Ok(false)
  {
    var tags := Tags(s);
    if tag in tags then Ok(tags[tag]) else Err(MissingTag(tag))
  }

  /** Whether the scenario applies to obj: only to forecasters, and not when
      the number of target variables, the time the horizon is passed, or
      missing values rule it out. */
  function IsApplicable(s: Scenario, obj: Candidate): (r: Result<bool, ScenarioError>)
    ensures r == Ok(true) ==> IsForecaster(obj)
    ensures r.Err? ==> r.error in {NotAClass, MissingTag("univariate_y"), MissingTag("fh_passed_in_fit")}
    ensures IsForecaster(obj) && "univariate_y" in s.ownTags && "fh_passed_in_fit" in s.ownTags ==> r.Ok?
  {
    if obj.OtherClass? then Ok(false)
    else if obj.OtherValue? then Err(NotAClass)
    else
      var t := obj.tags;
      match GetTag(s, "univariate_y")
      case Err(e) => Err(e)
      case Ok(isUnivariate) =>
        if isUnivariate && t.scitypeY == "multivariate" then Ok(false)
        else if !isUnivariate && t.scitypeY == "univariate" then Ok(false)
        else
          match GetTag(s, "fh_passed_in_fit")
          case Err(e) => Err(e)
          case Ok(fhInFit) =>
            if !fhInFit && t.requiresFhInFit then Ok(false)
            else
              match GetTag(s, "has_nans")
              case Err(e) => Err(e)
              case Ok(hasNans) => Ok(!(hasNans && !t.handlesMissingData))
  }

  // ---------------------------------------------------------------------
  // The applicability rule
  // ---------------------------------------------------------------------

  /** A class that is not a forecaster never applies; any other value that
      is not a forecaster makes the subclass test fail. */
  lemma NonForecasterNeverApplicable(s: Scenario)
    ensures IsApplicable(s, OtherClass) == Ok(false)
    ensures IsApplicable(s, OtherValue) == Err(NotAClass)
  {
  }

  /** A scenario without "has_nans" of its own has no missing values. */
  lemma HasNansDefaultsToFalse(s: Scenario)
    requires "has_nans" !in s.ownTags
    ensures GetTag(s, "has_nans") == Ok(false)
  {
  }

  /** A scenario that sets "univariate_y" and "fh_passed_in_fit" decides for
      every forecaster, and it applies exactly when none of its rejecting
      conditions holds. */
  lemma ApplicableIffNoRejection(s: Scenario, obj: Candidate)
    requires "univariate_y" in s.ownTags && "fh_passed_in_fit" in s.ownTags
    requires IsForecaster(obj)
    ensures IsApplicable(s, obj).Ok?
    ensures var t := obj.tags;
            var univariate := s.ownTags["univariate_y"];
            var fhInFit := s.ownTags["fh_passed_in_fit"];
            var hasNans := Tags(s)["has_nans"];
            IsApplicable(s, obj).value <==>
              !(univariate && t.scitypeY == "multivariate") &&
              !(!univariate && t.scitypeY == "univariate") &&
              !(!fhInFit && t.requiresFhInFit) &&
              !(hasNans && !t.handlesMissingData)
  {
  }

  /** A univariate scenario rejects multivariate forecasters, a multivariate
      one rejects univariate forecasters. */
  lemma ScitypeYRejects(s: Scenario, obj: Candidate)
    requires IsForecaster(obj) && "univariate_y" in s.ownTags
    ensures s.ownTags["univariate_y"] && obj.tags.scitypeY == "multivariate" ==> IsApplicable(s, obj) == Ok(false)
    ensures !s.ownTags["univariate_y"] && obj.tags.scitypeY == "univariate" ==> IsApplicable(s, obj) == Ok(false)
  {
  }

  /** A scenario that passes the horizon only at predict rejects forecasters
      that require it in fit. */
  lemma LateFhRejects(s: Scenario, obj: Candidate)
    requires IsForecaster(obj) && obj.tags.requiresFhInFit
    requires s.ownTags.Keys >= {"univariate_y", "fh_passed_in_fit"} && !s.ownTags["fh_passed_in_fit"]
    ensures IsApplicable(s, obj) == Ok(false)
  {
  }

  /** A scenario with missing values rejects forecasters that cannot handle them. */
  lemma NansReject(s: Scenario, obj: Candidate)
    requires IsForecaster(obj) && !obj.tags.handlesMissingData
    requires s.ownTags.Keys >= {"univariate_y", "fh_passed_in_fit"} && GetTag(s, "has_nans") == Ok(true)
    ensures IsApplicable(s, obj) == Ok(false)
  {
  }

  /** A scitype:y other than "univariate" and "multivariate" passes the
      target check of every scenario: only the horizon and missing-value
      checks can reject it. */
  lemma OtherScitypeYPasses(s: Scenario, obj: Candidate)
    requires IsForecaster(obj) && obj.tags.scitypeY != "univariate" && obj.tags.scitypeY != "multivariate"
    requires s.ownTags.Keys >= {"univariate_y", "fh_passed_in_fit"}
    ensures IsApplicable(s, obj) ==
            Ok(!(!s.ownTags["fh_passed_in_fit"] && obj.tags.requiresFhInFit) &&
               !(Tags(s)["has_nans"] && !obj.tags.handlesMissingData))
  {
  }

  // ---------------------------------------------------------------------
  // The declared scenarios
  // ---------------------------------------------------------------------

  const UnivariateNoX := Scenario("ForecasterFitPredictUnivariateNoX",
    map["univariate_y" := true, "fh_passed_in_fit" := true, "pre-refactor" := true], {"y", "fh"}, {"fh"})
  const UnivariateNoXEarlyFh := Scenario("ForecasterFitPredictUnivariateNoXEarlyFh",
    map["univariate_y" := true, "fh_passed_in_fit" := true], {"y", "fh"}, {})
  const UnivariateNoXLateFh := Scenario("ForecasterFitPredictUnivariateNoXLateFh",
    map["univariate_y" := true, "fh_passed_in_fit" := false], {"y"}, {"fh"})
  const UnivariateNoXLongFh := Scenario("ForecasterFitPredictUnivariateNoXLongFh",
    map["univariate_y" := true, "fh_passed_in_fit" := true], {"y", "fh"}, {})
  const UnivariateWithX := Scenario("ForecasterFitPredictUnivariateWithX",
    map["univariate_y" := true, "fh_passed_in_fit" := true], {"y", "X", "fh"}, {"X"})
  const UnivariateWithXLongFh := Scenario("ForecasterFitPredictUnivariateWithXLongFh",
    map["univariate_y" := true, "fh_passed_in_fit" := true], {"y", "X", "fh"}, {"X"})
  const MultivariateNoX := Scenario("ForecasterFitPredictMultivariateNoX",
    map["univariate_y" := false, "fh_passed_in_fit" := true, "pre-refactor" := true], {"y", "fh"}, {})
  const MultivariateWithX := Scenario("ForecasterFitPredictMultivariateWithX",
    map["univariate_y" := false, "fh_passed_in_fit" := true], {"y", "X", "fh"}, {"X"})
  const WithNan := Scenario("ForecasterFitPredictWithNan",
    map["univariate_y" := true, "has_nans" := true, "fh_passed_in_fit" := true, "pre-refactor" := true],
    {"y", "X", "fh"}, {"X"})

  const ScenariosSimple: seq<Scenario> := [UnivariateNoX, MultivariateWithX]

  const ScenariosExtended: seq<Scenario> := [
    UnivariateNoX, UnivariateNoXEarlyFh, UnivariateNoXLateFh, UnivariateWithX,
    UnivariateWithXLongFh, MultivariateNoX, MultivariateWithX, WithNan
  ]

  const ScenariosForecasting: seq<Scenario> := ScenariosExtended

  /** Every declared scenario sets both tags the rule needs, so it decides
      for every forecaster without error. */
  lemma DeclaredScenariosSetTags(s: Scenario)
    requires s in ScenariosExtended || s == UnivariateNoXLongFh
    ensures s.ownTags.Keys >= {"univariate_y", "fh_passed_in_fit"}
  {
  }

  /** The simple list is part of the extended list, which is the list of
      all forecasting scenarios; the long-horizon scenario without X is in
      neither. */
  lemma SimpleWithinExtended()
    ensures forall s :: s in ScenariosSimple ==> s in ScenariosExtended
    ensures ScenariosForecasting == ScenariosExtended
    ensures UnivariateNoXLongFh !in ScenariosExtended
  {
  }

  /** Only the scenario with missing values has "has_nans", and only the
      late-horizon scenario passes the horizon after fit. */
  lemma OnlyNanAndLateFhScenarios(s: Scenario)
    requires s in ScenariosExtended
    ensures GetTag(s, "has_nans") == Ok(true) <==> s == WithNan
    ensures GetTag(s, "fh_passed_in_fit") == Ok(false) <==> s == UnivariateNoXLateFh
  {
  }

  /** The horizon is among fit's arguments exactly when the scenario says
      it is passed in fit, and every scenario passes it to fit or predict. */
  lemma FhArgsMatchTag(s: Scenario)
    requires s in ScenariosExtended || s == UnivariateNoXLongFh
    ensures "fh" in s.fitArgs <==> GetTag(s, "fh_passed_in_fit") == Ok(true)
    ensures "fh" in s.fitArgs || "fh" in s.predictArgs
  {
  }

  /** Every forecaster, class or instance, has a scenario in the simple list
      that applies to it. */
  lemma SimpleScenariosCoverEveryForecaster(obj: Candidate)
    requires IsForecaster(obj)
    ensures exists s :: s in ScenariosSimple && IsApplicable(s, obj) == Ok(true)
  {
    if obj.tags.scitypeY == "multivariate" {
      assert IsApplicable(MultivariateWithX, obj) == Ok(true);
    } else {
      assert IsApplicable(UnivariateNoX, obj) == Ok(true);
    }
  }

  /** A forecaster that handles any number of target variables, does not
      need the horizon in fit and handles missing values is applicable to
      every scenario. */
  lemma UnrestrictedForecasterRunsEverywhere(obj: Candidate, s: Scenario)
    requires IsForecaster(obj)
    requires obj.tags == ForecasterTags("both", false, true)
    requires s in ScenariosExtended
    ensures IsApplicable(s, obj) == Ok(true)
  {
    DeclaredScenariosSetTags(s);
  }
}
