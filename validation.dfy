/** The draft of a job application and the rules the form checks before
    accepting it. Each rule yields at most one message for its field; the
    error map holds the message of every rule that fails, so nothing is
    short-circuited. */
module Validation {
  import opened Patterns

  /** The keys of the error map: the nine fields of the draft. */
  datatype Field =
    | FullName | Email | Phone | Position | Experience | Portfolio
    | ManagementExperience | Skills | InterviewTime

  const AllFields: set<Field> := {
    FullName, Email, Phone, Position, Experience, Portfolio,
    ManagementExperience, Skills, InterviewTime
  }

  /** The values the form holds; a submitted snapshot is one of these too. */
  datatype Draft = Draft(
    fullName: string,
    email: string,
    phone: string,
    position: string,
    experience: string,
    portfolio: string,
    managementExperience: string,
    skills: seq<string>,
    interviewTime: string)

  /** Every field as the form starts out: empty strings, no skills. */
  const EmptyDraft: Draft := Draft("", "", "", "", "", "", "", [], "")

  // The options of the position selector; "" means none chosen yet.
  const Developer: string := "Developer"
  const Designer: string := "Designer"
  const Manager: string := "Manager"

  const FullNameRequired: string := "Full Name is required."
  const EmailRequired: string := "Email is required."
  const EmailInvalid: string := "Email must be a valid email format."
  const PhoneRequired: string := "Phone Number is required."
  const PhoneInvalid: string := "Phone Number must be a valid number."
  const ExperienceRequired: string := "Relevant Experience is required."
  const ExperienceNotPositive: string := "Relevant Experience must be a number greater than 0."
  const PortfolioRequired: string := "Portfolio URL is required."
  const PortfolioInvalid: string := "Portfolio URL must be a valid URL."
  const ManagementExperienceRequired: string := "Management Experience is required."
  const SkillsRequired: string := "At least one skill must be selected."
  const InterviewTimeRequired: string := "Preferred Interview Time is required."

  /** The fields whose rules a position switches on, beyond the ones that
      always apply. */
  function ConditionalFields(position: string): (fs: set<Field>)
    ensures fs <= {Experience, Portfolio, ManagementExperience}
    ensures position == "" ==> fs == {}
  {
    if position == Developer then {Experience}
    else if position == Designer then {Experience, Portfolio}
    else if position == Manager then {ManagementExperience}
    else {}
  }

  /** Whether the position switches on the experience rule. */
  predicate AsksExperience(position: string) {
    position == Developer || position == Designer
  }

  /** Whether the position switches on the portfolio rule. */
  predicate AsksPortfolio(position: string) {
    position == Designer
  }

  /** Whether the position switches on the management experience rule. */
  predicate AsksManagementExperience(position: string) {
    position == Manager
  }

  /** The lookup table and the inline conditions the rules test agree, so
      the fields shown for a position are the fields validated for it. */
  lemma ActivationMatchesTable(position: string)
    ensures Experience in ConditionalFields(position) <==> AsksExperience(position)
    ensures Portfolio in ConditionalFields(position) <==> AsksPortfolio(position)
    ensures ManagementExperience in ConditionalFields(position) <==>
      AsksManagementExperience(position)
  {
    assert |Developer| == 9 && |Designer| == 8 && |Manager| == 7;
  }

  // One rule per field: the message it reports, if any.

  function FullNameRule(fullName: string): Option<string> {
    if fullName == "" then Some(FullNameRequired) else None
  }

  function EmailRule(email: string): Option<string> {
    if email == "" then Some(EmailRequired)
    else if !IsEmail(email) then Some(EmailInvalid)
    else None
  }

  function PhoneRule(phone: string): Option<string> {
    if phone == "" then Some(PhoneRequired)
    else if !IsPhoneNumber(phone) then Some(PhoneInvalid)
    else None
  }

  function ExperienceRule(position: string, experience: string): Option<string> {
    if !AsksExperience(position) then None
    else if experience == "" then Some(ExperienceRequired)
    else if NotPositive(experience) then Some(ExperienceNotPositive)
    else None
  }

  function PortfolioRule(position: string, portfolio: string): Option<string> {
    if !AsksPortfolio(position) then None
    else if portfolio == "" then Some(PortfolioRequired)
    else if !IsPortfolioUrl(portfolio) then Some(PortfolioInvalid)
    else None
  }

  function ManagementExperienceRule(position: string, managementExperience: string): Option<string> {
    if AsksManagementExperience(position) && managementExperience == ""
    then Some(ManagementExperienceRequired) else None
  }

  function SkillsRule(skills: seq<string>): Option<string> {
    if |skills| == 0 then Some(SkillsRequired) else None
  }

  function InterviewTimeRule(interviewTime: string): Option<string> {
    if interviewTime == "" then Some(InterviewTimeRequired) else None
  }

  /** The message the rule for field `f` reports on draft `d`, if any; no
      rule is attached to the position itself. */
  function ErrorFor(d: Draft, f: Field): Option<string> {
    match f
    case FullName => FullNameRule(d.fullName)
    case Email => EmailRule(d.email)
    case Phone => PhoneRule(d.phone)
    case Position => None
    case Experience => ExperienceRule(d.position, d.experience)
    case Portfolio => PortfolioRule(d.position, d.portfolio)
    case ManagementExperience => ManagementExperienceRule(d.position, d.managementExperience)
    case Skills => SkillsRule(d.skills)
    case InterviewTime => InterviewTimeRule(d.interviewTime)
  }

  /** The error map of a draft: one entry per failing rule. */
  function Errors(d: Draft): (r: map<Field, string>)
    // the fields that are always required
    ensures FullName in r <==> d.fullName == ""
    ensures Skills in r <==> |d.skills| == 0
    ensures InterviewTime in r <==> d.interviewTime == ""
    // the fields with a format
    ensures Email in r <==> d.email == "" || !MatchesEmailRegex(d.email)
    ensures Phone in r <==> !IsPhoneNumber(d.phone)
    // the fields a position switches on
    ensures Experience in r <==>
      (d.position == Developer || d.position == Designer)
      && (d.experience == "" || NotPositive(d.experience))
    ensures Portfolio in r <==>
      d.position == Designer && (d.portfolio == "" || !IsPortfolioUrl(d.portfolio))
    ensures ManagementExperience in r <==>
      d.position == Manager && d.managementExperience == ""
    ensures Position !in r
    ensures r.Keys * {Experience, Portfolio, ManagementExperience} <= ConditionalFields(d.position)
    // which message is reported
    ensures FullName in r ==> r[FullName] == FullNameRequired
    ensures Email in r ==> r[Email] == if d.email == "" then EmailRequired else EmailInvalid
    ensures Phone in r ==> r[Phone] == if d.phone == "" then PhoneRequired else PhoneInvalid
    ensures Experience in r ==>
      r[Experience] == if d.experience == "" then ExperienceRequired else ExperienceNotPositive
    ensures Portfolio in r ==>
      r[Portfolio] == if d.portfolio == "" then PortfolioRequired else PortfolioInvalid
    ensures ManagementExperience in r ==> r[ManagementExperience] == ManagementExperienceRequired
    ensures Skills in r ==> r[Skills] == SkillsRequired
    ensures InterviewTime in r ==> r[InterviewTime] == InterviewTimeRequired
  {
    IsEmailIffRegex(d.email);
    map f | f in AllFields && ErrorFor(d, f).Some? :: ErrorFor(d, f).value
  }

  /** Record the outcome of one rule in the map being built. */
  function Record(m: map<Field, string>, f: Field, outcome: Option<string>): map<Field, string> {
    if outcome.Some? then m[f := outcome.value] else m
  }

  /** The validator's run: the eight rules one after another, each adding
      its message, if any, to the map built so far. */
  function RunRules(d: Draft): map<Field, string> {
    var m1 := Record(map[], FullName, FullNameRule(d.fullName));
    var m2 := Record(m1, Email, EmailRule(d.email));
    var m3 := Record(m2, Phone, PhoneRule(d.phone));
    var m4 := Record(m3, Experience, ExperienceRule(d.position, d.experience));
    var m5 := Record(m4, Portfolio, PortfolioRule(d.position, d.portfolio));
    var m6 := Record(m5, ManagementExperience,
                     ManagementExperienceRule(d.position, d.managementExperience));
    var m7 := Record(m6, Skills, SkillsRule(d.skills));
    Record(m7, InterviewTime, InterviewTimeRule(d.interviewTime))
  }

  lemma RecordEntry(m: map<Field, string>, g: Field, outcome: Option<string>, f: Field)
    ensures f in Record(m, g, outcome) <==> (f == g && outcome.Some?) || f in m
    ensures f in Record(m, g, outcome) ==>
      Record(m, g, outcome)[f] == if f == g && outcome.Some? then outcome.value else m[f]
  {
  }

  /** Running the rules in order yields the error map: every rule is
      evaluated, every failure is reported, and no rule overwrites the entry
      of another. */
  lemma RunRulesIsErrors(d: Draft)
    ensures RunRules(d) == Errors(d)
  {
    var m1 := Record(map[], FullName, FullNameRule(d.fullName));
    var m2 := Record(m1, Email, EmailRule(d.email));
    var m3 := Record(m2, Phone, PhoneRule(d.phone));
    var m4 := Record(m3, Experience, ExperienceRule(d.position, d.experience));
    var m5 := Record(m4, Portfolio, PortfolioRule(d.position, d.portfolio));
    var m6 := Record(m5, ManagementExperience,
                     ManagementExperienceRule(d.position, d.managementExperience));
    var m7 := Record(m6, Skills, SkillsRule(d.skills));
    var m8 := Record(m7, InterviewTime, InterviewTimeRule(d.interviewTime));
    assert RunRules(d) == m8;
    var e := Errors(d);
    forall f
      ensures f in m8 <==> f in e
      ensures f in m8 ==> m8[f] == e[f]
    {
      RecordEntry(map[], FullName, FullNameRule(d.fullName), f);
      RecordEntry(m1, Email, EmailRule(d.email), f);
      RecordEntry(m2, Phone, PhoneRule(d.phone), f);
      RecordEntry(m3, Experience, ExperienceRule(d.position, d.experience), f);
      RecordEntry(m4, Portfolio, PortfolioRule(d.position, d.portfolio), f);
      RecordEntry(m5, ManagementExperience,
                  ManagementExperienceRule(d.position, d.managementExperience), f);
      RecordEntry(m6, Skills, SkillsRule(d.skills), f);
      RecordEntry(m7, InterviewTime, InterviewTimeRule(d.interviewTime), f);
    }
  }

  /** A draft passes exactly when every rule that applies to it holds. */
  predicate Passes(d: Draft) {
    |Errors(d)| == 0
  }

  lemma PassesIffRulesHold(d: Draft)
    ensures Passes(d) <==>
      && d.fullName != ""
      && d.email != "" && MatchesEmailRegex(d.email)
      && IsPhoneNumber(d.phone)
      && ((d.position == Developer || d.position == Designer) ==>
            d.experience != "" && !NotPositive(d.experience))
      && (d.position == Designer ==> IsPortfolioUrl(d.portfolio))
      && (d.position == Manager ==> d.managementExperience != "")
      && |d.skills| > 0
      && d.interviewTime != ""
  {
    var r := Errors(d);
    if |r| != 0 {
      var f :| f in r;
      assert f in AllFields;
    }
  }

  /** With no position chosen, none of the position-dependent fields is ever
      reported, whatever they hold. */
  lemma UnsetPositionIgnoresConditionalFields(d: Draft)
    requires d.position == ""
    ensures Experience !in Errors(d) && Portfolio !in Errors(d)
    ensures ManagementExperience !in Errors(d)
  {
  }

  /** The draft with `position` set and the three position-dependent fields
      cleared, as the position selector leaves it. */
  function WithPosition(d: Draft, position: string): (d': Draft)
    ensures d'.position == position
    ensures d'.experience == "" && d'.portfolio == "" && d'.managementExperience == ""
    ensures d'.fullName == d.fullName && d'.email == d.email && d'.phone == d.phone
    ensures d'.skills == d.skills && d'.interviewTime == d.interviewTime
  {
    d.(position := position, experience := "", portfolio := "", managementExperience := "")
  }

  /** Right after a position change, every field the new position switches on
      is reported as required, so a draft filled in for another position is
      never accepted without re-entry. */
  lemma PositionChangeRequiresReentry(d: Draft, position: string)
    ensures var e := Errors(WithPosition(d, position));
      && ConditionalFields(position) <= e.Keys
      && (Experience in e ==> e[Experience] == ExperienceRequired)
      && (Portfolio in e ==> e[Portfolio] == PortfolioRequired)
  {
  }

  /** Fields that the position does not switch on have no influence on the
      error map. */
  lemma InactiveFieldsIgnored(d: Draft, d': Draft)
    requires d.position == d'.position
    requires d.fullName == d'.fullName && d.email == d'.email && d.phone == d'.phone
    requires d.skills == d'.skills && d.interviewTime == d'.interviewTime
    requires Experience in ConditionalFields(d.position) ==> d.experience == d'.experience
    requires Portfolio in ConditionalFields(d.position) ==> d.portfolio == d'.portfolio
    requires ManagementExperience in ConditionalFields(d.position) ==>
      d.managementExperience == d'.managementExperience
    ensures Errors(d) == Errors(d')
  {
    forall f | f in AllFields ensures ErrorFor(d, f) == ErrorFor(d', f) {
    }
  }

  /** A developer draft with no name and zero or negative years of
      experience: both are reported, and a well-formed email and phone are
      not. */
  lemma DeveloperWithoutNameAndExperience(d: Draft, years: int)
    requires d.fullName == "" && IsEmail(d.email) && IsPhoneNumber(d.phone)
    requires d.position == Developer && years <= 0 && d.experience == IntString(years)
    requires |d.skills| > 0 && d.interviewTime != ""
    ensures Errors(d).Keys == {FullName, Experience}
    ensures Errors(d)[FullName] == FullNameRequired
    ensures Errors(d)[Experience] == ExperienceNotPositive
  {
    IntegerExperience(years);
    IntegerNonEmpty(years);
    assert |Developer| == 9 && |Designer| == 8 && |Manager| == 7;
    assert ExperienceRule(d.position, d.experience) == Some(ExperienceNotPositive);
    assert PortfolioRule(d.position, d.portfolio) == None;
    assert ManagementExperienceRule(d.position, d.managementExperience) == None;
    RunRulesIsErrors(d);
    assert RunRules(d) == map[FullName := FullNameRequired, Experience := ExperienceNotPositive];
  }

  /** A string without an `@` is always reported as a malformed email. */
  lemma EmailWithoutAt(d: Draft)
    requires d.email != "" && '@' !in d.email
    ensures Email in Errors(d) && Errors(d)[Email] == EmailInvalid
  {
  }

  /** A designer draft with every field filled in well passes. */
  lemma FilledDesignerPasses(d: Draft, years: int)
    requires d.fullName != "" && IsEmail(d.email) && IsPhoneNumber(d.phone)
    requires d.position == Designer && years > 0 && d.experience == IntString(years)
    requires IsPortfolioUrl(d.portfolio)
    requires |d.skills| > 0 && d.interviewTime != ""
    ensures Passes(d)
  {
    IsEmailIffRegex(d.email);
    IntegerExperience(years);
    PassesIffRulesHold(d);
  }

  /** The form as first rendered fails exactly the five rules that always
      apply. */
  lemma EmptyDraftErrors()
    ensures Errors(EmptyDraft).Keys == {FullName, Email, Phone, Skills, InterviewTime}
    ensures !Passes(EmptyDraft)
  {
    var e := Errors(EmptyDraft);
    assert FullName in e;
  }
}
