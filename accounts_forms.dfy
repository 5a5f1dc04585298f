/**
 * `ProfileForm`: the thirteen profile fields, each given the `form-control` class, then
 * made required or removed according to the role of the profile's owner.
 */
module AccountForms {
  import opened Wrappers
  import opened Accounts

  datatype ProfileField =
    | Address | City | Country | PostalCode
    | Institution | FieldOfStudy | AcademicLevel
    | Department | Position | ExperienceYears
    | LinkedinUrl | GithubUrl | PortfolioUrl

  /** A bound form field: whether it is required, and its widget's `class` attribute. */
  datatype FormField = FormField(required: bool, cssClass: string)

  const AllFields: set<ProfileField> := {
    Address, City, Country, PostalCode, Institution, FieldOfStudy, AcademicLevel,
    Department, Position, ExperienceYears, LinkedinUrl, GithubUrl, PortfolioUrl }

  const ContactAndSocial: set<ProfileField> := {
    Address, City, Country, PostalCode, LinkedinUrl, GithubUrl, PortfolioUrl }

  /** Every profile column is declared `blank=True`, so the model form starts with none required. */
  const Unstyled := FormField(false, "")

  /** A field once `__init__` has given its widget the `form-control` class. */
  const Styled := FormField(false, "form-control")

  /** The fields left on the form for an owner with role `owner`. */
  function FieldsFor(owner: Option<Role>): (r: set<ProfileField>)
    ensures ContactAndSocial <= r <= AllFields
  {
    if owner == Some(Intern) then AllFields - {Department, Position, ExperienceYears}
    else if owner == Some(Supervisor) then AllFields - {Institution, FieldOfStudy, AcademicLevel}
    else AllFields
  }

  /** The fields made required for an owner with role `owner`; they stay on the form. */
  function RequiredFor(owner: Option<Role>): (r: set<ProfileField>)
    ensures r <= FieldsFor(owner)
  {
    if owner == Some(Intern) then {Institution, FieldOfStudy}
    else if owner == Some(Supervisor) then {Department, Position}
    else {}
  }

  /**
   * An intern's form shows no professional field and a supervisor's no educational field;
   * the two roles require disjoint fields; any other owner sees every field, none required.
   */
  lemma ProfileRolesSeparate(other: Option<Role>)
    requires other != Some(Intern) && other != Some(Supervisor)
    ensures FieldsFor(Some(Intern)) !! {Department, Position, ExperienceYears}
    ensures FieldsFor(Some(Supervisor)) !! {Institution, FieldOfStudy, AcademicLevel}
    ensures RequiredFor(Some(Intern)) !! RequiredFor(Some(Supervisor))
    ensures FieldsFor(other) == AllFields && RequiredFor(other) == {}
  {
  }

  class ProfileForm {
    var fields: map<ProfileField, FormField>

    /**
     * `ProfileForm.__init__` for a profile whose owner has role `owner` (`None` when the
     * instance has no user yet). An intern's form requires institution and field of study
     * and loses the three professional fields; a supervisor's requires department and
     * position and loses the three educational fields; any other owner keeps all thirteen,
     * none required. Every remaining field carries the `form-control` class.
     */
    constructor (owner: Option<Role>)
      ensures fields.Keys == FieldsFor(owner)
      ensures forall f | f in fields :: fields[f] == FormField(f in RequiredFor(owner), "form-control")
    {
      var initial := map f | f in AllFields :: Unstyled;
      var styled: map<ProfileField, FormField> := map[];
      var pending := AllFields;
      while pending != {}
        invariant pending <= AllFields
        invariant styled.Keys == AllFields - pending
        invariant forall f | f in styled :: styled[f] == Styled
        decreases pending
      {
        var f :| f in pending;
        styled := styled[f := initial[f].(cssClass := "form-control")];
        pending := pending - {f};
      }
      fields := styled;
      new;
      if owner == Some(Intern) {
        fields := fields[Institution := fields[Institution].(required := true)];
        fields := fields[FieldOfStudy := fields[FieldOfStudy].(required := true)];
        fields := fields - {Department, Position, ExperienceYears};
      } else if owner == Some(Supervisor) {
        fields := fields[Department := fields[Department].(required := true)];
        fields := fields[Position := fields[Position].(required := true)];
        fields := fields - {Institution, FieldOfStudy, AcademicLevel};
      }
    }
  }
}
