/**
 * The form validators of lib/validation/schemas.ts: phone login, PIN set-up and
 * check, one-time code, account application, queue joining and transfers.
 * A value is accepted exactly when its list of issues is empty.
 */
module Schemas {
  import opened Wrappers
  import opened Text
  import opened Issues

  // ---------------------------------------------------------------------
  // Field schemas

  /** `^\+?[1-9]\d{1,14}$`: an optional plus sign, a non-zero digit, then 1 to 14 more digits. */
  predicate IsPhoneNumber(s: string)
  {
    var digits := if |s| > 0 && s[0] == '+' then s[1..] else s;
    2 <= |digits| <= 15 && AllDigits(digits) && digits[0] != '0'
  }

  const PhoneTooShort := "Phone number must be at least 9 digits"
  const PhoneTooLong := "Phone number must be at most 15 digits"
  const PhoneBadFormat := "Invalid phone number format"

  function PhoneIssues(phone: string): seq<Issue>
  {
    Check(|phone| >= 9, PhoneTooShort)
      + Check(|phone| <= 15, PhoneTooLong)
      + Check(IsPhoneNumber(phone), PhoneBadFormat)
  }

  const PinLength := "PIN must be exactly 4 digits"
  const PinDigits := "PIN must contain only numbers"

  function PinIssues(pin: string): seq<Issue>
  {
    Check(|pin| == 4, PinLength) + Check(|pin| == 4 && AllDigits(pin), PinDigits)
  }

  const OtpLength := "Verification code must be 6 digits"
  const OtpDigits := "Verification code must contain only numbers"

  function OtpIssues(otp: string): seq<Issue>
  {
    Check(|otp| == 6, OtpLength) + Check(|otp| == 6 && AllDigits(otp), OtpDigits)
  }

  /** A phone number is accepted when it has 9 to 15 characters and matches the number pattern. */
  lemma PhoneAcceptance(phone: string)
    ensures PhoneIssues(phone) == [] <==> 9 <= |phone| <= 15 && IsPhoneNumber(phone)
  {
  }

  /** The pattern alone admits 2 to 16 characters: a leading plus sign may precede 15 digits. */
  lemma PhonePatternLength(phone: string)
    requires IsPhoneNumber(phone)
    ensures 2 <= |phone| <= 16
    ensures |phone| == 16 ==> phone[0] == '+'
  {
  }

  /** So a plus sign and fifteen digits pass the pattern and still fail the length limit. */
  lemma PlusWithFifteenDigits()
    ensures PhoneIssues("+258841234567890") == [Issue([], PhoneTooLong)]
  {
    assert IsPhoneNumber("+258841234567890") by {
      assert "+258841234567890"[1..] == "258841234567890";
    }
  }

  /** A PIN is accepted exactly when it is four digits. */
  lemma PinAcceptance(pin: string)
    ensures PinIssues(pin) == [] <==> |pin| == 4 && AllDigits(pin)
  {
  }

  /** A PIN of the wrong length draws both issues, the length one first. */
  lemma PinWrongLength(pin: string)
    requires |pin| != 4
    ensures PinIssues(pin) == [Issue([], PinLength), Issue([], PinDigits)]
  {
  }

  /** A one-time code is accepted exactly when it is six digits. */
  lemma OtpAcceptance(otp: string)
    ensures OtpIssues(otp) == [] <==> |otp| == 6 && AllDigits(otp)
  {
  }

  // ---------------------------------------------------------------------
  // Object schemas

  datatype Login = Login(phone: string)

  function LoginIssues(l: Login): seq<Issue>
  {
    At("phone", PhoneIssues(l.phone))
  }

  /** Phone login is accepted exactly for a phone number the phone schema accepts; its issues are reported at phone. */
  lemma LoginAcceptance(l: Login)
    ensures LoginIssues(l) == [] <==> 9 <= |l.phone| <= 15 && IsPhoneNumber(l.phone)
    ensures forall x :: x in LoginIssues(l) ==> |x.path| == 1 && x.path[0] == "phone"
  {
    PhoneAcceptance(l.phone);
  }

  datatype PinSetup = PinSetup(pin: string, confirmPin: string)

  const PinsDontMatch := "PINs don't match"

  /** Both PINs are checked, then their equality, reported at `confirmPin`. */
  function PinSetupIssues(s: PinSetup): seq<Issue>
  {
    At("pin", PinIssues(s.pin))
      + At("confirmPin", PinIssues(s.confirmPin))
      + At("confirmPin", Check(s.pin == s.confirmPin, PinsDontMatch))
  }

  /** A PIN set-up is accepted exactly when the PIN is four digits and typed the same twice. */
  lemma PinSetupAcceptance(s: PinSetup)
    ensures PinSetupIssues(s) == [] <==> |s.pin| == 4 && AllDigits(s.pin) && s.confirmPin == s.pin
  {
  }

  /** Differing PINs are always reported at `confirmPin`, whatever else is wrong with them. */
  lemma PinMismatchReported(s: PinSetup)
    requires s.pin != s.confirmPin
    ensures Issue(["confirmPin"], PinsDontMatch) in PinSetupIssues(s)
  {
    AtCheck("confirmPin", false, PinsDontMatch);
  }

  datatype PinVerify = PinVerify(pin: string)

  function PinVerifyIssues(v: PinVerify): seq<Issue>
  {
    At("pin", PinIssues(v.pin))
  }

  /** PIN entry is accepted exactly for four digits; its issues are reported at pin. */
  lemma PinVerifyAcceptance(v: PinVerify)
    ensures PinVerifyIssues(v) == [] <==> |v.pin| == 4 && AllDigits(v.pin)
    ensures forall x :: x in PinVerifyIssues(v) ==> |x.path| == 1 && x.path[0] == "pin"
  {
    PinAcceptance(v.pin);
  }

  datatype OtpVerify = OtpVerify(otp: string)

  function OtpVerifyIssues(v: OtpVerify): seq<Issue>
  {
    At("otp", OtpIssues(v.otp))
  }

  /** A verification code is accepted exactly for six digits; its issues are reported at otp. */
  lemma OtpVerifyAcceptance(v: OtpVerify)
    ensures OtpVerifyIssues(v) == [] <==> |v.otp| == 6 && AllDigits(v.otp)
    ensures forall x :: x in OtpVerifyIssues(v) ==> |x.path| == 1 && x.path[0] == "otp"
  {
    OtpAcceptance(v.otp);
  }

  /** The document uploads of the form are not part of this record. */
  datatype AccountApplication = AccountApplication(fullName: string, idNumber: string, nuit: string)

  const NuitTooShort := "NUIT must be at least 9 digits"
  const NuitTooLong := "NUIT must be exactly 9 digits"

  function AccountApplicationIssues(a: AccountApplication): seq<Issue>
  {
    At("fullName", Check(|a.fullName| >= 2, "Full name must be at least 2 characters"))
      + At("idNumber", Check(|a.idNumber| >= 8, "ID number must be at least 8 characters"))
      + At("nuit", Check(|a.nuit| >= 9, NuitTooShort) + Check(|a.nuit| <= 9, NuitTooLong))
  }

  /** The tax number is accepted exactly when it has nine characters; its messages say digits, but any character passes. */
  lemma AccountApplicationAcceptance(a: AccountApplication)
    ensures AccountApplicationIssues(a) == [] <==> |a.fullName| >= 2 && |a.idNumber| >= 8 && |a.nuit| == 9
  {
  }

  datatype QueueJoin = QueueJoin(branchId: string, serviceType: string)

  function QueueJoinIssues(q: QueueJoin): seq<Issue>
  {
    At("branchId", Check(|q.branchId| >= 1, "Please select a branch"))
      + At("serviceType", Check(|q.serviceType| >= 1, "Please select a service"))
  }

  /** Joining a queue needs a branch and a service to be chosen. */
  lemma QueueJoinAcceptance(q: QueueJoin)
    ensures QueueJoinIssues(q) == [] <==> q.branchId != [] && q.serviceType != []
  {
  }

  datatype Transfer = Transfer(amount: real, recipientAccount: string, description: Option<string>)

  const AmountTooSmall := "Amount must be greater than 0"

  function TransferIssues(t: Transfer): seq<Issue>
  {
    At("amount", Check(t.amount >= 1.0, AmountTooSmall))
      + At("recipientAccount", Check(|t.recipientAccount| >= 10, "Invalid account number"))
  }

  /** A transfer is accepted exactly when it moves at least one unit to an account number of ten or more characters. */
  lemma TransferAcceptance(t: Transfer)
    ensures TransferIssues(t) == [] <==> t.amount >= 1.0 && |t.recipientAccount| >= 10
  {
  }

  /** An amount between 0 and 1 is positive and still refused, with the message that it must be positive. */
  lemma FractionalAmountRefused(recipient: string, description: Option<string>)
    requires |recipient| >= 10
    ensures TransferIssues(Transfer(0.5, recipient, description)) == [Issue(["amount"], AmountTooSmall)]
  {
    AtCheck("amount", false, AmountTooSmall);
  }
}
