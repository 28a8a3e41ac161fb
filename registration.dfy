/**
 * The three-step sign-up form for store owners: phone number and name, then
 * the one-time password sent by SMS, then the store's details. The outcome of
 * each call to the authentication service is a parameter of the handler that
 * awaits it.
 */
module Registration {
  import opened Wrappers
  import opened Phone

  datatype Step = Info | Otp | Store

  /** What `completeRegistration` is called with. */
  datatype CompletionRequest = CompletionRequest(userId: string, phoneNumber: string, fullName: string,
                                                 storeName: string, storeAddress: string, storePhone: string)

  /** `phoneInfoSchema`: phone of at least 10 characters that is a valid Indian number, name of at least 2. */
  predicate PhoneInfoAccepted(phone: string, fullName: string)
  {
    |phone| >= 10 && IsValidIndianPhone(phone) && |fullName| >= 2
  }

  /** `otpSchema`: exactly six characters. */
  predicate OtpAccepted(otp: string) { |otp| == 6 }

  /** `storeSetupSchema`: name of at least 2, address of at least 10, a valid Indian phone of at least 10. */
  predicate StoreSetupAccepted(storeName: string, storeAddress: string, storePhone: string)
  {
    |storeName| >= 2 && |storeAddress| >= 10 && |storePhone| >= 10 && IsValidIndianPhone(storePhone)
  }

  /** A normalised Indian mobile number: `+91` and ten digits, the first of them 6-9. */
  predicate IsMobileE164(s: string)
  {
    IsIndianE164(s) && IsMobileLead(s[3])
  }

  /** The step counter shown above the form. */
  function StepNumber(step: Step): (n: int)
    ensures 1 <= n <= 3
  {
    match step
    case Info => 1
    case Otp => 2
    case Store => 3
  }

  /** The progress bar value. */
  function Progress(step: Step): (p: int)
    ensures p == if StepNumber(step) == 3 then 100 else 33 * StepNumber(step)
  {
    if step == Info then 33 else if step == Otp then 66 else 100
  }

  /** The bar only moves forward as the step number grows. */
  lemma ProgressFollowsStep(a: Step, b: Step)
    ensures StepNumber(a) < StepNumber(b) <==> Progress(a) < Progress(b)
  {
  }

  class RegistrationForm {
    var currentStep: Step
    var isLoading: bool
    var phoneNumber: string
    var fullName: string
    var userId: Option<string>
    /** The value of the OTP input. */
    var otp: string

    /**
     * Between events nothing is loading; once past the first step the form holds
     * a normalised mobile number and a name, and on the last step a user id.
     */
    ghost predicate Valid()
      reads this
    {
      && !isLoading
      && (currentStep != Info ==> IsMobileE164(phoneNumber) && |fullName| >= 2)
      && (currentStep == Store ==> userId.Some?)
    }

    constructor ()
      ensures Valid()
      ensures currentStep == Info && !isLoading && userId == None
      ensures phoneNumber == "" && fullName == "" && otp == ""
    {
      currentStep := Info;
      isLoading := false;
      phoneNumber := "";
      fullName := "";
      userId := None;
      otp := "";
    }

    /**
     * Submitting the first step (also "Resend OTP", which submits it again):
     * the schema rejects bad input; otherwise the OTP is requested for the
     * normalised number, and only when that succeeds does the form record the
     * number and name and move to the OTP step. `busyDuringCall` is `isLoading`
     * while the request is outstanding.
     */
    method OnPhoneInfoSubmit(phone: string, name: string, sendSucceeded: bool)
      returns (sentTo: Option<string>, ghost busyDuringCall: bool)
      requires Valid() && currentStep != Store
      modifies this
      ensures Valid()
      ensures sentTo.Some? <==> PhoneInfoAccepted(phone, name)
      ensures sentTo.Some? ==> sentTo.value == FormatPhoneNumber(phone) && IsMobileE164(sentTo.value)
      ensures sentTo.Some? ==> busyDuringCall
      ensures sentTo.Some? && sendSucceeded ==>
        currentStep == Otp && phoneNumber == sentTo.value && fullName == name
      ensures !(sentTo.Some? && sendSucceeded) ==>
        currentStep == old(currentStep) && phoneNumber == old(phoneNumber) && fullName == old(fullName)
      ensures userId == old(userId) && otp == old(otp)
    {
      busyDuringCall := false;
      if !PhoneInfoAccepted(phone, name) {
        sentTo := None;
        return;
      }
      isLoading := true;
      var formattedPhone := FormatPhoneNumber(phone);
      ValidPhoneFormatsToMobileE164(phone);
      sentTo := Some(formattedPhone);
      busyDuringCall := isLoading;
      if sendSucceeded {
        phoneNumber := formattedPhone;
        fullName := name;
        currentStep := Otp;
      }
      isLoading := false;
    }

    /**
     * Submitting the OTP: the schema rejects bad input; otherwise the code is
     * checked for the recorded number, and only a successful check that returns
     * a user records the user's id and moves to the store step.
     */
    method OnOtpSubmit(code: string, verified: bool, user: Option<string>)
      returns (checkedFor: Option<string>, ghost busyDuringCall: bool)
      requires Valid() && currentStep == Otp
      modifies this
      ensures Valid()
      ensures checkedFor.Some? <==> OtpAccepted(code)
      ensures checkedFor.Some? ==> checkedFor.value == phoneNumber && busyDuringCall
      ensures checkedFor.Some? && verified && user.Some? ==> currentStep == Store && userId == user
      ensures !(checkedFor.Some? && verified && user.Some?) ==> currentStep == Otp && userId == old(userId)
      ensures phoneNumber == old(phoneNumber) && fullName == old(fullName)
      ensures otp == code
    {
      busyDuringCall := false;
      otp := code;
      if !OtpAccepted(code) {
        checkedFor := None;
        return;
      }
      isLoading := true;
      checkedFor := Some(phoneNumber);
      busyDuringCall := isLoading;
      if verified && user.Some? {
        userId := user;
        currentStep := Store;
      }
      isLoading := false;
    }

    /** "Change Number": back to the first step with the OTP input cleared. */
    method HandleBackToPhone()
      requires Valid() && currentStep == Otp
      modifies this
      ensures Valid()
      ensures currentStep == Info && otp == ""
      ensures phoneNumber == old(phoneNumber) && fullName == old(fullName) && userId == old(userId)
    {
      currentStep := Info;
      otp := "";
    }

    /** "Back" on the store step: return to the OTP step. */
    method HandleBackToOtp()
      requires Valid() && currentStep == Store
      modifies this
      ensures Valid()
      ensures currentStep == Otp
      ensures phoneNumber == old(phoneNumber) && fullName == old(fullName) && userId == old(userId)
      ensures otp == old(otp)
    {
      currentStep := Otp;
    }

    /**
     * Submitting the store step: the schema rejects bad input, and without a
     * user id nothing is sent; otherwise `completeRegistration` is called with
     * the verified number, the name, the store details and the normalised store phone.
     */
    method OnStoreSetupSubmit(storeName: string, storeAddress: string, storePhone: string)
      returns (request: Option<CompletionRequest>)
      requires Valid() && currentStep == Store
      ensures request.Some? <==>
        StoreSetupAccepted(storeName, storeAddress, storePhone) && userId.Some? && userId.value != ""
      ensures request.Some? ==>
        && Some(request.value.userId) == userId
        && request.value.phoneNumber == phoneNumber && IsMobileE164(request.value.phoneNumber)
        && request.value.fullName == fullName
        && request.value.storeName == storeName && request.value.storeAddress == storeAddress
        && request.value.storePhone == FormatPhoneNumber(storePhone) && IsMobileE164(request.value.storePhone)
    {
      if !StoreSetupAccepted(storeName, storeAddress, storePhone) {
        return None;
      }
      if userId.None? || userId.value == "" {
        return None;
      }
      ValidPhoneFormatsToMobileE164(storePhone);
      request := Some(CompletionRequest(userId.value, phoneNumber, fullName, storeName, storeAddress,
                                        FormatPhoneNumber(storePhone)));
    }
  }
}
