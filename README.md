# sktime detection conversion, scitype register and forecasting scenarios in Dafny

This project models three small pieces of deterministic logic from sktime:

- **Change points to segments** (`DetectionConvert`). A detector's points-like output is a sorted list of change-point locations. It becomes segments-like output: left-closed, contiguous intervals over a break list, optionally labelled `0, 1, …`. The break list is the points with `0` in front (unless the first point is `0`) and, at the end, either `len_X` (unless the last point already equals it) or the last point plus one. Building intervals from breaks that descend is an error (`ValueError` from `IntervalIndex.from_breaks`). The model returns that error as a `Result` and does not require valid input.
- **Scitype base-class register** (`BaseClasses`, with `Comprehensions` for the list and dict comprehensions it uses). The scitype classes are an input sequence of records: name, parent, short description, `mixin` flag and base-class identifier. The sequence is in enumeration order. The model covers:
  - the selection by the `mixin` flag;
  - the register and scitype list, whose construction loops are methods;
  - the optional removal of `"object"` and `"estimator"`;
  - the stable move of `"distribution"` to the end;
  - the base-class list and lookup dictionary;
  - the name lookup, which searches the full scitypes and then the mixins, and answers a nested list element by element. An unknown name gives `KeyError`.

  The declared scitype table is included as data: 21 full scitypes and 4 legacy mixin transformer scitypes.
- **Forecasting test scenarios** (`ForecastingScenarios`). A scenario has its own tags, inherits `has_nans = False`, and carries the argument names of its `fit` and `predict` calls. The applicability check is modelled in the source's order of evaluation:
  - a class that is not a forecaster gives `False`;
  - a value that is neither a forecaster instance nor a class makes `issubclass` raise `TypeError`;
  - reading a tag the scenario does not set raises `ValueError`;
  - otherwise the number of target variables, the time the horizon is passed, and missing values decide.

  The nine declared scenarios and the simple and extended lists are included as data.

`Outcome` holds the `Option` and `Result` types.

The scenario `ForecasterFitPredictUnivariateNoXLongFh` is declared but is in neither scenario list; `SimpleWithinExtended` states this.

## Model

| member | source | states |
|---|---|---|
| DetectionConvert.Breaks | sktime/detection/_datatypes/_convert.py:26-32 | the break list starts at 0 and ends at len_X, or at the last point plus one when len_X is absent; it holds the points, in order, after an optional leading 0; it is one longer for a prepended 0 and one longer for an appended end |
| DetectionConvert.FromBreaks | sktime/detection/_datatypes/_convert.py:34 | left-closed intervals over consecutive breaks succeed exactly when the breaks are non-decreasing; there is one interval fewer than there are breaks, and interval i is [b[i], b[i+1]) |
| DetectionConvert.ConvertPointsToSegments | sktime/detection/_datatypes/_convert.py:7-41 | an empty input gives an empty frame with both an ilocs and a labels column; otherwise the labels column is present exactly when include_labels is set, and the labels are 0..n-1 in segment order |
| DetectionConvert.ValidPointsConvert | sktime/detection/_datatypes/_convert.py:26-34 | non-decreasing, non-negative points no greater than len_X always convert without error |
| DetectionConvert.ConvertFailsIffBreaksDescend | sktime/detection/_datatypes/_convert.py:26-34 | a non-empty conversion fails exactly when some break exceeds a later one |
| DetectionConvert.SegmentsOverBreaks | sktime/detection/_datatypes/_convert.py:34 | the segments are exactly [b[i], b[i+1]) over the break list, one fewer than there are breaks |
| DetectionConvert.SegmentCount | sktime/detection/_datatypes/_convert.py:27-34 | the segment count is the number of points minus one, plus one for a prepended 0 and one for an appended end |
| DetectionConvert.FirstSegmentStartsAtZero | sktime/detection/_datatypes/_convert.py:27-28 | the first segment starts at 0 |
| DetectionConvert.LastSegmentEnd | sktime/detection/_datatypes/_convert.py:29-32 | with len_X the last segment ends at len_X; without it the last segment is [last point, last point + 1), of length 1 |
| DetectionConvert.Contiguous | sktime/detection/_datatypes/_convert.py:34 | each segment ends where the next begins |
| DetectionConvert.BoundariesOfBreaks | sktime/detection/_datatypes/_convert.py:34 | the left end of the first interval and the right ends of all intervals give back the break list |
| DetectionConvert.PointsAppearInOrder | sktime/detection/_datatypes/_convert.py:26-34 | the input points appear consecutively and in order among the segment boundaries, after an optional leading 0 |
| DetectionConvert.BreaksCover | sktime/detection/_datatypes/_convert.py:34 | every location from the first break up to the last lies between some pair of consecutive breaks |
| DetectionConvert.IntervalsCover | sktime/detection/_datatypes/_convert.py:34 | every location from the first break up to the last lies in some interval built from the breaks |
| DetectionConvert.IntervalsDisjoint | sktime/detection/_datatypes/_convert.py:34 | no location lies in two of the intervals built from the breaks |
| DetectionConvert.IntervalsWithinBreaks | sktime/detection/_datatypes/_convert.py:34 | a location before the first break or at or after the last lies in no interval |
| DetectionConvert.Coverage | sktime/detection/_datatypes/_convert.py:26-34 | every location in [0, end) lies in exactly one segment, and no location outside [0, end) lies in any segment |
| DetectionConvert.WorkedExample | sktime/detection/_datatypes/test/test_convert.py:18-29 | points 2, 3, 7 with len_X 10 give [0,2), [2,3), [3,7), [7,10), labelled 0..3 with labels and unlabelled without, as in the example frames at sktime/detection/_datatypes/_examples.py:29-47 |
| Comprehensions.Filter | sktime/registry/_base_classes.py:522 | a filtering list comprehension keeps exactly the wanted elements, each as often as in the input; their order is stated by FilterKeepsOrder |
| Comprehensions.KeptPositions | sktime/registry/_base_classes.py:522 | the positions of the kept elements lie within the input and strictly increase |
| Comprehensions.KeptPositionsComplete | sktime/registry/_base_classes.py:522 | every position holding a wanted element is a kept position |
| Comprehensions.ReadAt | sktime/registry/_base_classes.py:522 | reading a list at given positions gives one element per position, in the order of the positions |
| Comprehensions.FilterKeepsOrder | sktime/registry/_base_classes.py:522 | the filtered list is the input read at the increasing kept positions, so the kept elements keep their input order |
| Comprehensions.KeptPositionsRead | sktime/registry/_base_classes.py:522 | the same for a suffix of a list, read at positions counted from the suffix's start |
| Comprehensions.FilterConcat | sktime/registry/_base_classes.py:593-596 | filtering a concatenation is filtering each part and concatenating, so both groups keep their order when joined |
| Comprehensions.Project | sktime/registry/_base_classes.py:666 | a projecting list comprehension keeps length and order and maps each element |
| Comprehensions.NameMap | sktime/registry/_base_classes.py:685 | the keys of a dict comprehension are the keys of the elements |
| Comprehensions.NameMapLastWins | sktime/registry/_base_classes.py:685 | a key maps to the value of the last element with that key |
| Comprehensions.NameMapValueFrom | sktime/registry/_base_classes.py:564 | every value in the dictionary is the value of some element with its key |
| BaseClasses.GetBaseClasses | sktime/registry/_base_classes.py:503-524 | the selected classes are exactly the enumerated classes whose mixin flag equals the one asked for, each as often as enumerated |
| BaseClasses.ConstructBaseClassRegister | sktime/registry/_base_classes.py:527-542 | the loop yields one (name, base class, description) entry per selected class, in order |
| BaseClasses.ConstructScitypeList | sktime/registry/_base_classes.py:601-610 | the loop yields one (name, description) pair per selected class, in order |
| BaseClasses.Kept | sktime/registry/_base_classes.py:590-591 | an entry is kept exactly when it is in the raw list and base objects are included or its name is neither "object" nor "estimator"; KeptFiltersBaseObjs states multiplicities |
| BaseClasses.DistributionsLast | sktime/registry/_base_classes.py:593-596 | the moved list holds exactly the entries of its input; DistributionsLastPermutes, DistributionsLastOrdered and DistributionsLastStable state permutation, order and stability |
| BaseClasses.Reordered | sktime/registry/_base_classes.py:590-596 | the filtered and reordered list holds exactly the raw entries that survive the base-object filter |
| BaseClasses.GetBaseClassRegister | sktime/registry/_base_classes.py:569-598 | the register holds exactly the raw register's entries that survive the base-object filter; RegisterPermutesRaw and RegisterShape state multiplicities and order |
| BaseClasses.GetObjScitypeList | sktime/registry/_base_classes.py:613-647 | it returns pairs exactly when descriptions are asked for, and names only otherwise; the content is stated by ScitypeDescribedMatchesNames, ScitypeListShape, ScitypeListPermutesRaw and ScitypeNamesMatchRegister |
| BaseClasses.GetBaseClassList | sktime/registry/_base_classes.py:650-666 | the base classes of the register entries, with the same length and order |
| BaseClasses.GetBaseClassLookup | sktime/registry/_base_classes.py:669-686 | the dictionary's keys are exactly the register's names |
| BaseClasses.CollectAnswers | sktime/registry/_base_classes.py:559-560 | the elementwise answers when every element succeeds; otherwise the error of the first element that fails |
| BaseClasses.MixinPartition | sktime/registry/_base_classes.py:522 | the two mixin selections together are the enumerated classes, none lost, none duplicated, and they are disjoint |
| BaseClasses.KeptFiltersBaseObjs | sktime/registry/_base_classes.py:590-591 | without base objects no "object" or "estimator" entry remains and every other entry is kept as often as it occurs; with them nothing is removed |
| BaseClasses.DistributionsLastPermutes | sktime/registry/_base_classes.py:593-596 | moving the "distribution" entries last loses and duplicates no entry |
| BaseClasses.DistributionsLastOrdered | sktime/registry/_base_classes.py:593-596 | after the move every "distribution" entry comes after every other entry |
| BaseClasses.DistributionsLastStable | sktime/registry/_base_classes.py:593-596 | the move keeps the relative order of the "distribution" entries and of the others |
| BaseClasses.ReorderedFromRaw | sktime/registry/_base_classes.py:588-598 | every entry after filtering and reordering is an entry of the raw list |
| BaseClasses.RegisterPermutesRaw | sktime/registry/_base_classes.py:588-598 | the register holds each raw entry as often as the raw register does, except the dropped "object" and "estimator" entries |
| BaseClasses.RegisterShape | sktime/registry/_base_classes.py:588-598 | without base objects the register has no "object" or "estimator" entry, and its "distribution" entries come last |
| BaseClasses.RawEntryFromClass | sktime/registry/_base_classes.py:527-542 | each raw register entry is the entry of an enumerated class with the requested mixin flag |
| BaseClasses.RegisterEntriesFromClasses | sktime/registry/_base_classes.py:569-598 | each register entry is the entry of an enumerated class with the requested mixin flag |
| BaseClasses.ScitypeNamesMatchRegister | sktime/registry/_base_classes.py:630-647 | the scitype names without descriptions are the register's names, in the register's order |
| BaseClasses.ScitypeDescribedMatchesNames | sktime/registry/_base_classes.py:644-647 | the described pairs carry the names of the names-only list, in the same order |
| BaseClasses.ScitypeListShape | sktime/registry/_base_classes.py:636-642 | without base objects the described list has no "object" or "estimator" pair, and its "distribution" pairs come after all others |
| BaseClasses.ScitypeListPermutesRaw | sktime/registry/_base_classes.py:634-645 | the described list holds each raw pair as often as the raw list does, except the dropped "object" and "estimator" pairs |
| BaseClasses.LookupAgreesWithList | sktime/registry/_base_classes.py:684-686 | a register name maps to the base class of its last entry; for a name no later entry repeats, that is the entry at the same position in the base class list |
| BaseClasses.LookupValueFromRegister | sktime/registry/_base_classes.py:684-686 | each key of the lookup maps to the base class of a register entry with that name |
| BaseClasses.GetBaseClassForStr | sktime/registry/_base_classes.py:545-566 | a name is answered with a single base class or a KeyError naming it; a list is answered with as many answers as it has items; ForStrSearchesBothPartitions and ForStrMapsOverLists state which |
| BaseClasses.ForStrSearchesBothPartitions | sktime/registry/_base_classes.py:562-566 | a name is found exactly when some class, full or mixin, has it, and then the answer is the base class of such a class; an unknown name gives KeyError naming it |
| BaseClasses.ForStrUniqueName | sktime/registry/_base_classes.py:562-566 | a class whose name no other class shares is answered with its own base class |
| BaseClasses.ForStrMapsOverLists | sktime/registry/_base_classes.py:559-560 | a list query succeeds exactly when every element does, answers element by element with the same length and order, and otherwise fails with the error of its first failing element |
| BaseClasses.ForStrLastMixinWins | sktime/registry/_base_classes.py:562-566 | the last mixin class is found by name with its own base class |
| BaseClasses.UniformMixinSelection | sktime/registry/_base_classes.py:522 | classes that all carry one mixin flag are all selected for that flag and none for the other |
| BaseClasses.DeclaredMixinClasses | sktime/registry/_base_classes.py:715-780 | the mixin selection of the declared classes is the four legacy transformer scitypes |
| BaseClasses.DeclaredFullClasses | sktime/registry/_base_classes.py:78-500 | the full selection of the declared classes is the 21 classes that inherit mixin False |
| BaseClasses.LegacyNames | sktime/registry/_base_classes.py:715-780 | the legacy scitype names, in enumeration order |
| BaseClasses.DeclaredMixins | sktime/registry/_base_classes.py:715-780 | the names of the mixin scitypes are exactly panel-to-panel, panel-to-tabular, series-to-primitives and series-to-series trafo |
| BaseClasses.LegacyScitypeResolves | sktime/registry/_base_classes.py:732-748 | "series-to-series-trafo" is found by name among the declared classes and gives `_SeriesToSeriesTransformer` |
| ForecastingScenarios.GetTag | sktime/utils/_testing/scenarios_forecasting.py:33 | a tag the scenario sets gives its value; "has_nans" not set gives False; any other unset tag is an error |
| ForecastingScenarios.IsApplicable | sktime/utils/_testing/scenarios_forecasting.py:35-79 | only a forecaster can be applicable; the only errors are issubclass on a non-class and a missing univariate_y or fh_passed_in_fit tag; with both tags set, a forecaster always gets an answer; ApplicableIffNoRejection states which |
| ForecastingScenarios.NonForecasterNeverApplicable | sktime/utils/_testing/scenarios_forecasting.py:55-56 | a class that is not a forecaster is never applicable; any other non-forecaster value is a TypeError |
| ForecastingScenarios.HasNansDefaultsToFalse | sktime/utils/_testing/scenarios_forecasting.py:33 | a scenario without its own "has_nans" tag has no missing values |
| ForecastingScenarios.ApplicableIffNoRejection | sktime/utils/_testing/scenarios_forecasting.py:35-79 | a scenario that sets both of the tags the check reads decides for every forecaster without error; it applies exactly when none of the four rejecting conditions holds |
| ForecastingScenarios.ScitypeYRejects | sktime/utils/_testing/scenarios_forecasting.py:59-65 | a univariate scenario rejects multivariate forecasters and a multivariate scenario rejects univariate ones |
| ForecastingScenarios.OtherScitypeYPasses | sktime/utils/_testing/scenarios_forecasting.py:59-77 | any other scitype:y passes the target check; only the horizon and missing-value checks decide |
| ForecastingScenarios.LateFhRejects | sktime/utils/_testing/scenarios_forecasting.py:68-71 | a scenario that passes the horizon after fit rejects forecasters that require it in fit |
| ForecastingScenarios.NansReject | sktime/utils/_testing/scenarios_forecasting.py:74-77 | a scenario with missing values rejects forecasters that cannot handle them |
| ForecastingScenarios.DeclaredScenariosSetTags | sktime/utils/_testing/scenarios_forecasting.py:82-224 | every declared scenario sets "univariate_y" and "fh_passed_in_fit" |
| ForecastingScenarios.SimpleWithinExtended | sktime/utils/_testing/scenarios_forecasting.py:227-243 | the simple list lies within the extended list; scenarios_forecasting is the extended list; the long-horizon scenario without X is not in it |
| ForecastingScenarios.OnlyNanAndLateFhScenarios | sktime/utils/_testing/scenarios_forecasting.py:106-241 | among the listed scenarios only the one with missing values has has_nans True, and only the late-horizon one has fh_passed_in_fit False |
| ForecastingScenarios.FhArgsMatchTag | sktime/utils/_testing/scenarios_forecasting.py:82-224 | fit's arguments include fh exactly when fh_passed_in_fit is True, and every scenario passes fh to fit or to predict |
| ForecastingScenarios.SimpleScenariosCoverEveryForecaster | sktime/utils/_testing/scenarios_forecasting.py:227-230 | every forecaster, class or instance, has an applicable scenario in the simple list |
| ForecastingScenarios.UnrestrictedForecasterRunsEverywhere | sktime/utils/_testing/scenarios_forecasting.py:35-79 | a forecaster with scitype:y "both" that does not require the horizon in fit and handles missing data is applicable to every listed scenario |

## Left out

- numpy and pandas representation: DataFrame columns, `IntervalIndex`, `int64` dtype and `RangeIndex`. Segments are integer pairs, frames are a segment sequence with an optional label sequence, and integers are unbounded, so an `int64` overflow of `last + 1` is not modelled.
- Reflection and caching in the registry: `inspect.getmembers`, `sys.modules`, `lru_cache`, and the lazy imports in `get_base_class` and `get_test_class`. The enumerated classes are an input sequence and base classes are opaque string identifiers. The declared table lists the classes in the order `inspect.getmembers` yields them, sorted by Python class name.
- Tag inheritance through `get_class_tags` belongs to `BaseObject`, which is not part of this model. Each class carries its own tags plus the defaults declared in `_BaseScitypeOfObject`.
- The test classes returned by `get_test_class` are not modelled.
- `get_base_class_for_str` on a value that is neither a string nor a list is not modelled; queries are names or nested lists of them.
- ForecastingScenarios.IsApplicable: the forecaster's `scitype:y`, `requires-fh-in-fit` and `handles-missing-data` tags are inputs. Their defaults and inheritance come from `BaseForecaster`, which is not part of this model. The tags are booleans and strings, not arbitrary Python values tested for truth.
- Scenario argument data is not modelled: `_make_series`, the random seed, `LONG_X` slicing, NaN injection and the values of `fh`. Only the argument names are kept. The `TestScenario` machinery that runs the methods, such as the default method sequence, is not part of this model either.
- The skip switch `run_test_module_changed`, the metric, parameter-estimator and clusterer conformance tests, and the example-frame constructors other than the worked example are not modelled.
