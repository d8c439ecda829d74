/** The three-step registration wizard: each step's form hands its data
    to the wizard, which stores it and moves on; the last step merges all
    fields and submits them; "back" returns to the previous step or leaves
    the screen. A step's data is a record of named text fields. */
module Register {
  import opened Wrappers

  type FormData = map<string, string>

  /** `registrationData`: what each step has stored so far. */
  datatype RegistrationData = RegistrationData(step1: Option<FormData>, step2: Option<FormData>, step3: Option<FormData>)

  const Empty := RegistrationData(None, None, None)
  const HomeRoute := "/"

  /** `{...x}` of an optional record: nothing when it is missing. */
  function Spread(x: Option<FormData>): FormData
  {
    if x.Some? then x.value else map[]
  }

  /** `{...step1, ...step2, ...data}`: every field of the three records,
      a later record's value winning over an earlier one's. */
  function Merge(step1: Option<FormData>, step2: Option<FormData>, step3: FormData): (r: FormData)
    ensures forall k :: k in r <==> k in Spread(step1) || k in Spread(step2) || k in step3
    ensures forall k :: k in step3 ==> r[k] == step3[k]
    ensures forall k :: k !in step3 && k in Spread(step2) ==> r[k] == Spread(step2)[k]
    ensures forall k :: k !in step3 && k !in Spread(step2) && k in Spread(step1) ==> r[k] == Spread(step1)[k]
  {
    Spread(step1) + Spread(step2) + step3
  }

  /** The `defaultValues` the form of a step is shown with. */
  function Defaults(data: RegistrationData, step: int): (r: Option<FormData>)
    ensures step == 1 ==> r == data.step1
    ensures step == 2 ==> r == data.step2
    ensures step != 1 && step != 2 ==> r == data.step3
  {
    if step == 1 then data.step1 else if step == 2 then data.step2 else data.step3
  }

  /** The wizard states the handlers can reach: a step in 1..3, the data of
      every earlier step stored, and nothing ever stored for step 3, since
      the last step submits its data instead of storing it. */
  predicate Reachable(step: int, data: RegistrationData)
  {
    && 1 <= step <= 3
    && data.step3 == None
    && (step >= 2 ==> data.step1.Some?)
    && (step >= 3 ==> data.step2.Some?)
  }

  /** Fields of distinct steps never clash when their names are disjoint,
      so the merge then holds each step's value unchanged. */
  lemma MergeDisjoint(step1: FormData, step2: FormData, step3: FormData, k: string)
    requires step1.Keys !! step2.Keys && step1.Keys !! step3.Keys && step2.Keys !! step3.Keys
    ensures k in step1 ==> Merge(Some(step1), Some(step2), step3)[k] == step1[k]
    ensures k in step2 ==> Merge(Some(step1), Some(step2), step3)[k] == step2[k]
  {
    if k in step1 {
      assert k !in step2 && k !in step3;
    }
    if k in step2 {
      assert k !in step3;
    }
  }

  class RegisterScreen {
    var currentStep: int
    var registrationData: RegistrationData
    var loading: bool

    /** The wizard is always on one of its three steps, with the data of
        the steps before it stored. */
    ghost predicate Valid()
      reads this
    {
      Reachable(currentStep, registrationData)
    }

    constructor ()
      ensures Valid() && currentStep == 1 && registrationData == Empty && !loading
    {
      currentStep := 1;
      registrationData := Empty;
      loading := false;
    }

    /** `handleStep1Next` */
    method Step1Next(data: FormData)
      requires Valid()
      modifies this
      ensures Valid() && currentStep == 2 && loading == old(loading)
      ensures registrationData == old(registrationData).(step1 := Some(data))
      ensures Defaults(registrationData, 1) == Some(data)
    {
      registrationData := registrationData.(step1 := Some(data));
      currentStep := 2;
    }

    /** `handleStep2Next`. It is wired only to the form rendered on step 2,
        so the wizard is on step 2 when it runs. */
    method Step2Next(data: FormData)
      requires Valid() && currentStep == 2
      modifies this
      ensures Valid() && currentStep == 3 && loading == old(loading)
      ensures registrationData == old(registrationData).(step2 := Some(data))
      ensures Defaults(registrationData, 2) == Some(data)
    {
      registrationData := registrationData.(step2 := Some(data));
      currentStep := 3;
    }

    /** The synchronous part of `handleStep3Next`: loading starts and the
        complete record is assembled. The step-3 data itself is not stored. */
    method BeginSubmit(data: FormData) returns (complete: FormData)
      requires Valid()
      modifies this
      ensures Valid() && loading
      ensures currentStep == old(currentStep) && registrationData == old(registrationData)
      ensures complete == Merge(registrationData.step1, registrationData.step2, data)
    {
      loading := true;
      complete := Merge(registrationData.step1, registrationData.step2, data);
    }

    /** The end of `handleStep3Next`: loading stops whatever happened, and
        on success the app goes to the home route. */
    method FinishSubmit(succeeded: bool) returns (navigateTo: Option<string>)
      requires Valid()
      modifies this
      ensures Valid() && !loading
      ensures currentStep == old(currentStep) && registrationData == old(registrationData)
      ensures navigateTo == if succeeded then Some(HomeRoute) else None
    {
      loading := false;
      navigateTo := if succeeded then Some(HomeRoute) else None;
    }

    /** `handleBack`: one step back, or leave the screen from the first step. */
    method Back() returns (leaves: bool)
      requires Valid()
      modifies this
      ensures Valid() && registrationData == old(registrationData) && loading == old(loading)
      ensures leaves <==> old(currentStep) == 1
      ensures currentStep == if leaves then old(currentStep) else old(currentStep) - 1
      ensures !leaves ==> Defaults(registrationData, currentStep).Some?
      ensures !leaves && currentStep == 1 ==> Defaults(registrationData, currentStep) == registrationData.step1
      ensures !leaves && currentStep == 2 ==> Defaults(registrationData, currentStep) == registrationData.step2
    {
      BackRestoresDefaults(currentStep, registrationData);
      leaves := currentStep <= 1;
      if !leaves {
        currentStep := currentStep - 1;
      }
    }

    /** The defaults of the form on display. */
    method CurrentDefaults() returns (defaults: Option<FormData>)
      requires Valid()
      ensures defaults == Defaults(registrationData, currentStep)
      ensures currentStep == 3 ==> defaults == None
      ensures currentStep < 3 ==> defaults == if currentStep == 1 then registrationData.step1 else registrationData.step2
    {
      defaults := Defaults(registrationData, currentStep);
    }
  }

  /** Going back from a reachable step shows the data the previous step
      stored, which is always present; the third form never has defaults. */
  lemma BackRestoresDefaults(step: int, data: RegistrationData)
    requires Reachable(step, data)
    ensures step > 1 ==> Defaults(data, step - 1).Some?
    ensures step == 2 ==> Defaults(data, step - 1) == data.step1
    ensures step == 3 ==> Defaults(data, step - 1) == data.step2
    ensures Defaults(data, 3) == None
  {
  }
}
