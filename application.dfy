/** The job application form component: the nine draft fields, the error
    map shown next to the inputs and the snapshot shown after a successful
    submission, with the event handlers that update them. Each handler is
    one atomic update of the component's state. */
module ApplicationForm {
  import opened Patterns
  import opened Skills
  import opened Validation

  class Application {
    var position: string
    var experience: string
    var portfolio: string
    var managementExperience: string
    var fullName: string
    var email: string
    var phone: string
    var skills: seq<string>
    var interviewTime: string
    var errors: map<Field, string>
    var submittedData: Option<Draft>

    /** The nine draft fields as one value. */
    function CurrentDraft(): Draft
      reads this
    {
      Draft(fullName, email, phone, position, experience, portfolio,
            managementExperience, skills, interviewTime)
    }

    /** What every handler keeps true: a skill never appears twice, and a
        stored snapshot is one that passed validation. */
    ghost predicate Valid()
      reads this
    {
      && NoDuplicates(skills)
      && (submittedData.Some? ==> Passes(submittedData.value))
    }

    /** The form as first rendered: empty fields, no errors, nothing
        submitted. */
    constructor ()
      ensures Valid()
      ensures CurrentDraft() == EmptyDraft
      ensures errors == map[] && submittedData == None
    {
      position, experience, portfolio, managementExperience := "", "", "", "";
      fullName, email, phone := "", "", "";
      skills, interviewTime := [], "";
      errors, submittedData := map[], None;
    }

    /** The position selector: set the position and clear the fields that
        depend on it; everything else stays. */
    method HandlePositionChange(value: string)
      requires Valid()
      modifies this
      ensures Valid()
      ensures CurrentDraft() == WithPosition(old(CurrentDraft()), value)
      ensures errors == old(errors) && submittedData == old(submittedData)
    {
      position := value;
      experience := "";
      portfolio := "";
      managementExperience := "";
    }

    /** A skill checkbox: toggle the skill in the list. */
    method HandleSkillChange(value: string)
      requires Valid()
      modifies this
      ensures Valid()
      ensures CurrentDraft() == old(CurrentDraft()).(skills := ToggleSkill(old(skills), value))
      ensures errors == old(errors) && submittedData == old(submittedData)
    {
      TogglePreservesNoDuplicates(skills, value);
      skills := ToggleSkill(skills, value);
    }

    /** A text input, the experience and portfolio inputs, the management
        experience textarea or the interview time picker: store the typed
        value in its field. The position selector and the skill boxes have
        their own handlers. */
    method HandleInput(field: Field, value: string)
      requires Valid()
      requires field != Position && field != Skills
      modifies this
      ensures Valid()
      ensures CurrentDraft() == match field
        case FullName => old(CurrentDraft()).(fullName := value)
        case Email => old(CurrentDraft()).(email := value)
        case Phone => old(CurrentDraft()).(phone := value)
        case Experience => old(CurrentDraft()).(experience := value)
        case Portfolio => old(CurrentDraft()).(portfolio := value)
        case ManagementExperience => old(CurrentDraft()).(managementExperience := value)
        case _ => old(CurrentDraft()).(interviewTime := value)
      ensures errors == old(errors) && submittedData == old(submittedData)
    {
      match field
      case FullName => fullName := value;
      case Email => email := value;
      case Phone => phone := value;
      case Experience => experience := value;
      case Portfolio => portfolio := value;
      case ManagementExperience => managementExperience := value;
      case InterviewTime => interviewTime := value;
    }

    /** Run every rule on the current draft, replace the error map with the
        result and report whether it is empty. */
    method Validate() returns (ok: bool)
      modifies this`errors
      ensures errors == Errors(CurrentDraft())
      ensures ok <==> Passes(CurrentDraft())
    {
      ghost var d := CurrentDraft();
      var newErrors: map<Field, string> := map[];
      newErrors := Record(newErrors, FullName, FullNameRule(fullName));
      newErrors := Record(newErrors, Email, EmailRule(email));
      newErrors := Record(newErrors, Phone, PhoneRule(phone));
      newErrors := Record(newErrors, Experience, ExperienceRule(position, experience));
      newErrors := Record(newErrors, Portfolio, PortfolioRule(position, portfolio));
      newErrors := Record(newErrors, ManagementExperience,
                          ManagementExperienceRule(position, managementExperience));
      newErrors := Record(newErrors, Skills, SkillsRule(skills));
      newErrors := Record(newErrors, InterviewTime, InterviewTimeRule(interviewTime));
      assert newErrors == RunRules(d);
      RunRulesIsErrors(d);

      errors := newErrors;
      assert CurrentDraft() == d;
      ok := |newErrors| == 0;
    }

    /** The submit button: validate, and store a snapshot of the draft only
        when no rule fails. The draft itself is kept either way. */
    method HandleSubmit()
      requires Valid()
      modifies this`errors, this`submittedData
      ensures Valid()
      ensures CurrentDraft() == old(CurrentDraft())
      ensures errors == Errors(CurrentDraft())
      ensures submittedData ==
        if Passes(CurrentDraft()) then Some(CurrentDraft()) else old(submittedData)
    {
      var ok := Validate();
      if ok {
        submittedData := Some(CurrentDraft());
      }
    }
  }

  /** Validating twice without editing in between stores the same map and
      gives the same answer. */
  method ValidateTwice(app: Application) returns (first: bool, second: bool)
    modifies app`errors
    ensures first == second
    ensures app.errors == Errors(app.CurrentDraft())
  {
    first := app.Validate();
    var firstErrors := app.errors;
    second := app.Validate();
    assert app.errors == firstErrors;
  }

  /** Submitting the form as first rendered stores nothing and reports the
      five fields that are always required. */
  method SubmitEmptyForm() returns (app: Application)
    ensures app.submittedData == None
    ensures app.errors.Keys == {FullName, Email, Phone, Skills, InterviewTime}
  {
    app := new Application();
    app.HandleSubmit();
    EmptyDraftErrors();
  }
}
