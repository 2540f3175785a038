/** BaseActivityValidator and EditActivityValidator
    (Application/Activities/Validators): the field rules a create or edit
    command must pass before its handler runs. */
module ActivityValidators {
  import opened Domain
  import opened ActivityDtos
  import opened Validation

  /** The rules of BaseActivityValidator, one per `NotEmpty`, `MaximumLength`,
      `GreaterThan` or `InclusiveBetween` check. */
  datatype BaseRule =
    | TitleRequired | TitleMaxLength | DescriptionRequired | DateInFuture
    | CategoryRequired | CityRequired | VenueRequired
    | LatitudeRequired | LatitudeRange | LongitudeRequired | LongitudeRange

  /** The rules in the order the constructor declares them; FluentValidation
      runs every rule and every check of a rule, so this is also the order of
      the reported failures. */
  const BaseRules: seq<BaseRule> := [
    TitleRequired, TitleMaxLength, DescriptionRequired, DateInFuture,
    CategoryRequired, CityRequired, VenueRequired,
    LatitudeRequired, LatitudeRange, LongitudeRequired, LongitudeRange]

  /** The failure each rule reports. `RuleFor(x => selector(x).Title)` reports
      under the name of the last member, "Title". */
  function FailureOf(rule: BaseRule): (f: ValidationFailure)
    ensures f.propertyName != "ActivityDto.Id"
  {
    match rule
    case TitleRequired => ValidationFailure("Title", "Title is required")
    case TitleMaxLength => ValidationFailure("Title", "Title must not excees 100 characters")
    case DescriptionRequired => ValidationFailure("Description", "Description is required")
    case DateInFuture => ValidationFailure("Date", "Date must be in the future")
    case CategoryRequired => ValidationFailure("Category", "Category is required")
    case CityRequired => ValidationFailure("City", "City is required")
    case VenueRequired => ValidationFailure("Venue", "Venue is required")
    case LatitudeRequired => ValidationFailure("Latitude", "Latitude is required")
    case LatitudeRange => ValidationFailure("Latitude", "Latitude must be between -90 and 90")
    case LongitudeRequired => ValidationFailure("Longitude", "Longitude is required")
    case LongitudeRange => ValidationFailure("Longitude", "Longitude must be between -180 and 180")
  }

  /** Every rule has a message of its own. */
  lemma FailureOfInjective()
    ensures forall a, b :: FailureOf(a) == FailureOf(b) ==> a == b
  {
  }

  /** When a rule rejects the DTO. `now` is the `DateTime.UtcNow` read when the
      validator was built; `NotEmpty` on a double rejects its default 0, and
      `InclusiveBetween` keeps both ends of the range. */
  predicate Broken(rule: BaseRule, dto: BaseActivityDto, now: DateTime) {
    match rule
    case TitleRequired => !NotBlank(dto.title)
    case TitleMaxLength => |dto.title| > 100
    case DescriptionRequired => !NotBlank(dto.description)
    case DateInFuture => !(dto.date > now)
    case CategoryRequired => !NotBlank(dto.category)
    case CityRequired => !NotBlank(dto.city)
    case VenueRequired => !NotBlank(dto.venue)
    case LatitudeRequired => dto.latitude == 0.0
    case LatitudeRange => dto.latitude < -90.0 || dto.latitude > 90.0
    case LongitudeRequired => dto.longitude == 0.0
    case LongitudeRange => dto.longitude < -180.0 || dto.longitude > 180.0
  }

  /** The failures of `rules` on a DTO, in rule order. */
  function Check(rules: seq<BaseRule>, dto: BaseActivityDto, now: DateTime): (r: seq<ValidationFailure>)
    ensures forall rule :: FailureOf(rule) in r <==> rule in rules && Broken(rule, dto, now)
    ensures forall x :: x in r ==> exists rule :: rule in rules && x == FailureOf(rule)
  {
    if rules == [] then []
    else
      FailureOfInjective();
      var rest := Check(rules[1..], dto, now);
      assert forall rule :: rule in rules <==> rule == rules[0] || rule in rules[1..];
      if Broken(rules[0], dto, now) then [FailureOf(rules[0])] + rest else rest
  }

  /** `BaseRules` lists every rule. */
  lemma AllRulesListed()
    ensures forall rule :: rule in BaseRules
  {
    forall rule ensures rule in BaseRules {
      match rule
      case TitleRequired => assert BaseRules[0] == rule;
      case TitleMaxLength => assert BaseRules[1] == rule;
      case DescriptionRequired => assert BaseRules[2] == rule;
      case DateInFuture => assert BaseRules[3] == rule;
      case CategoryRequired => assert BaseRules[4] == rule;
      case CityRequired => assert BaseRules[5] == rule;
      case VenueRequired => assert BaseRules[6] == rule;
      case LatitudeRequired => assert BaseRules[7] == rule;
      case LatitudeRange => assert BaseRules[8] == rule;
      case LongitudeRequired => assert BaseRules[9] == rule;
      case LongitudeRange => assert BaseRules[10] == rule;
    }
  }

  /** BaseActivityValidator applied to a DTO. */
  function ValidateBase(dto: BaseActivityDto, now: DateTime): (r: seq<ValidationFailure>)
    ensures forall rule :: FailureOf(rule) in r <==> Broken(rule, dto, now)
    ensures forall x :: x in r ==> exists rule :: x == FailureOf(rule)
  {
    AllRulesListed();
    Check(BaseRules, dto, now)
  }

  /** Every rule of the base validator, stated field by field. */
  predicate BaseRulesHold(dto: BaseActivityDto, now: DateTime) {
    && NotBlank(dto.title) && |dto.title| <= 100
    && NotBlank(dto.description)
    && dto.date > now
    && NotBlank(dto.category) && NotBlank(dto.city) && NotBlank(dto.venue)
    && dto.latitude != 0.0 && -90.0 <= dto.latitude <= 90.0
    && dto.longitude != 0.0 && -180.0 <= dto.longitude <= 180.0
  }

  /** A DTO passes exactly when every rule holds; in particular both ends of
      each coordinate range pass. */
  lemma BaseValidIff(dto: BaseActivityDto, now: DateTime)
    ensures ValidateBase(dto, now) == [] <==> BaseRulesHold(dto, now)
  {
    var r := ValidateBase(dto, now);
    if r != [] {
      assert r[0] in r;
    }
    assert BaseRulesHold(dto, now) <==>
      && !Broken(TitleRequired, dto, now) && !Broken(TitleMaxLength, dto, now)
      && !Broken(DescriptionRequired, dto, now) && !Broken(DateInFuture, dto, now)
      && !Broken(CategoryRequired, dto, now) && !Broken(CityRequired, dto, now)
      && !Broken(VenueRequired, dto, now)
      && !Broken(LatitudeRequired, dto, now) && !Broken(LatitudeRange, dto, now)
      && !Broken(LongitudeRequired, dto, now) && !Broken(LongitudeRange, dto, now);
  }

  /** EditActivityValidator: the base rules on `command.ActivityDto`, then
      `RuleFor(x => x.ActivityDto.Id)`. */
  function ValidateEdit(dto: EditActivityDto, now: DateTime): (r: seq<ValidationFailure>)
    ensures |r| >= |ValidateBase(dto.fields, now)|
    ensures r[..|ValidateBase(dto.fields, now)|] == ValidateBase(dto.fields, now)
    ensures ValidationFailure("ActivityDto.Id", "Id is required") in r <==> !NotBlank(dto.id)
  {
    var base := ValidateBase(dto.fields, now);
    var id := if NotBlank(dto.id) then [] else [ValidationFailure("ActivityDto.Id", "Id is required")];
    assert (base + id)[..|base|] == base;
    base + id
  }

  /** An edit command passes exactly when its DTO passes the base rules and
      its id is not empty, so every valid edit is also a valid base DTO. */
  lemma EditValidIff(dto: EditActivityDto, now: DateTime)
    ensures ValidateEdit(dto, now) == [] <==> BaseRulesHold(dto.fields, now) && NotBlank(dto.id)
    ensures ValidateEdit(dto, now) == [] ==> ValidateBase(dto.fields, now) == []
  {
    BaseValidIff(dto.fields, now);
  }
}
