/**
 * The business logic of the service layer: the age-group classifier
 * `UserService.get_age_group`. The other two service operations are single
 * calls into the ORM and are not modelled here.
 */
module UserService {
  import opened Outcomes

  /** The message of the `ValueError` raised for an age that is not positive. */
  const InvalidAgeMessage: string := "Edad invalida"

  /** The three labels the classifier can return, ordered by age. */
  datatype AgeGroup = Underage | Adult | Senior
  {
    /** The string the classifier returns for this group. */
    function Label(): string
    {
      match this
      case Underage => "underage"
      case Adult => "adult"
      case Senior => "senior"
    }

    /** Position of the group in age order: underage < adult < senior. */
    function Rank(): nat
    {
      match this
      case Underage => 0
      case Adult => 1
      case Senior => 2
    }

    /**
     * The inclusive age range the group stands for: 1 to 17, 18 to 63, and 64
     * or above. This is the reference the classifier is proved against.
     */
    predicate Covers(age: int)
    {
      match this
      case Underage => 1 <= age <= 17
      case Adult => 18 <= age <= 63
      case Senior => 64 <= age
    }
  }

  /**
   * `UserService.get_age_group`: the if/elif chain over `age`, returning a
   * group or raising `ValueError("Edad invalida")`.
   */
  function GetAgeGroup(age: int): (r: Outcome<AgeGroup>)
    ensures r.Returned? <==> 0 < age
    ensures r.Raised? ==> r.error == ValueError(InvalidAgeMessage)
    ensures r.Returned? ==> r.value.Covers(age)
  {
    if 0 < age < 18 then Returned(Underage)
    else if 18 <= age < 64 then Returned(Adult)
    else if age >= 64 then Returned(Senior)
    else Raised(ValueError(InvalidAgeMessage))
  }

  /** The classifier returns a group exactly when that group's range holds the age. */
  lemma GetAgeGroupMatchesRanges(age: int, g: AgeGroup)
    ensures GetAgeGroup(age) == Returned(g) <==> g.Covers(age)
  {
  }

  /**
   * The three ranges partition the positive integers: a positive age lies in
   * exactly one of them, and a non-positive age in none.
   */
  lemma RangesPartitionPositiveAges(age: int)
    ensures 0 < age <==> exists g: AgeGroup :: g.Covers(age)
    ensures forall g: AgeGroup, h: AgeGroup :: g.Covers(age) && h.Covers(age) ==> g == h
  {
    if 0 < age {
      // the classifier's own answer is the witness
      var g := GetAgeGroup(age).value;
      assert g.Covers(age);
    }
  }

  /** Every age has exactly one outcome, and a returned label is one of the three. */
  lemma OutcomeIsOneOfFour(age: int)
    ensures GetAgeGroup(age) in {Returned(Underage), Returned(Adult), Returned(Senior), Raised(ValueError("Edad invalida"))}
    ensures GetAgeGroup(age).Returned? ==> GetAgeGroup(age).value.Label() in {"underage", "adult", "senior"}
  {
  }

  /** Distinct groups have distinct labels, so a label names its group. */
  lemma LabelIdentifiesGroup(g: AgeGroup, h: AgeGroup)
    ensures g.Label() == h.Label() <==> g == h
  {
  }

  /** The values at and beside each boundary of the ranges. */
  lemma Boundaries()
    ensures GetAgeGroup(0) == Raised(ValueError("Edad invalida"))
    ensures GetAgeGroup(1) == Returned(Underage)
    ensures GetAgeGroup(17) == Returned(Underage)
    ensures GetAgeGroup(18) == Returned(Adult)
    ensures GetAgeGroup(63) == Returned(Adult)
    ensures GetAgeGroup(64) == Returned(Senior)
  {
  }

  /** The cases of the unit tests of the classifier. */
  lemma UnitTestCases()
    ensures GetAgeGroup(10).Returned? && GetAgeGroup(10).value.Label() == "underage"
    ensures GetAgeGroup(17).Returned? && GetAgeGroup(17).value.Label() == "underage"
    ensures GetAgeGroup(35).Returned? && GetAgeGroup(35).value.Label() == "adult"
    ensures GetAgeGroup(70).Returned? && GetAgeGroup(70).value.Label() == "senior"
    ensures GetAgeGroup(0).Raised? && GetAgeGroup(0).error == ValueError("Edad invalida")
  {
  }

  /** An older valid age never gets a younger group. */
  lemma Monotonic(a: int, b: int)
    requires 0 < a <= b
    ensures GetAgeGroup(a).value.Rank() <= GetAgeGroup(b).value.Rank()
  {
  }
}
