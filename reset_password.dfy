/**
 * The password-reset form (src/pages/Auth/ResetPassword.tsx): the
 * three-rule password policy, the checklist drawn from the same rules, the
 * submit button, and the submit handler, which checks the confirmation
 * before the policy and calls `updatePassword` only when both pass.
 */
module ResetPassword {
  import opened Common
  import Seqs
  import Text
  import AuthService

  /** `/[A-Z]/.test(pwd)` */
  predicate HasUpper(pwd: string)
  {
    exists i :: 0 <= i < |pwd| && Text.IsUpper(pwd[i])
  }

  /** `/[0-9]/.test(pwd)` */
  predicate HasDigit(pwd: string)
  {
    exists i :: 0 <= i < |pwd| && Text.IsDigit(pwd[i])
  }

  /** The policy's rules, in the order they are checked and listed. */
  datatype Rule = MinLength | Uppercase | Digit

  const Rules: seq<Rule> := [MinLength, Uppercase, Digit]

  predicate Met(r: Rule, pwd: string)
  {
    match r
    case MinLength => |pwd| >= 6
    case Uppercase => HasUpper(pwd)
    case Digit => HasDigit(pwd)
  }

  /** The message `validatePassword` reports for a rule that is not met. */
  function ErrorText(r: Rule): string
  {
    match r
    case MinLength => "Mínimo 6 caracteres"
    case Uppercase => "Una mayúscula"
    case Digit => "Un número"
  }

  function ErrorTexts(rs: seq<Rule>): (ts: seq<string>)
    ensures |ts| == |rs|
    ensures forall i :: 0 <= i < |rs| ==> ts[i] == ErrorText(rs[i])
  {
    seq(|rs|, i requires 0 <= i < |rs| => ErrorText(rs[i]))
  }

  /** The test of a rule that `pwd` breaks. */
  function Broken(pwd: string): Rule -> bool
  {
    (r: Rule) => !Met(r, pwd)
  }

  /** The messages of the rules `pwd` breaks, in rule order. */
  function PolicyErrors(pwd: string): seq<string>
  {
    ErrorTexts(Seqs.Filter(Rules, Broken(pwd)))
  }

  /** `validatePassword(pwd)`: each failed check pushes its message. */
  method ValidatePassword(pwd: string) returns (errors: seq<string>)
    ensures errors == PolicyErrors(pwd)
  {
    errors := [];
    if |pwd| < 6 {
      errors := errors + ["Mínimo 6 caracteres"];
    }
    if !HasUpper(pwd) {
      errors := errors + ["Una mayúscula"];
    }
    if !HasDigit(pwd) {
      errors := errors + ["Un número"];
    }
    PolicyErrorsCases(pwd);
  }

  /** `PolicyErrors` spelt out: the message of each broken rule, in order. */
  lemma PolicyErrorsCases(pwd: string)
    ensures PolicyErrors(pwd) ==
              (if |pwd| < 6 then ["Mínimo 6 caracteres"] else [])
              + (if !HasUpper(pwd) then ["Una mayúscula"] else [])
              + (if !HasDigit(pwd) then ["Un número"] else [])
  {
    var p := Broken(pwd);
    var a := Seqs.Filter([MinLength], p);
    var b := Seqs.Filter([Uppercase], p);
    var c := Seqs.Filter([Digit], p);
    assert Seqs.Filter(Rules, p) == a + b + c by {
      assert Rules == [MinLength] + [Uppercase] + [Digit];
      Seqs.FilterAppend([MinLength] + [Uppercase], [Digit], p);
      Seqs.FilterAppend([MinLength], [Uppercase], p);
    }
    ErrorTextsAppend(a + b, c);
    ErrorTextsAppend(a, b);
    TextOfOne(MinLength, pwd);
    TextOfOne(Uppercase, pwd);
    TextOfOne(Digit, pwd);
  }

  /** The messages of a one-rule list: the rule's message when it is broken. */
  lemma TextOfOne(x: Rule, pwd: string)
    ensures ErrorTexts(Seqs.Filter([x], Broken(pwd))) == if Met(x, pwd) then [] else [ErrorText(x)]
  {
    FilterOne(x, Broken(pwd));
  }

  lemma FilterOne(x: Rule, p: Rule -> bool)
    ensures Seqs.Filter([x], p) == if p(x) then [x] else []
  {
    assert [x][1..] == [];
  }

  lemma ErrorTextsAppend(a: seq<Rule>, b: seq<Rule>)
    ensures ErrorTexts(a + b) == ErrorTexts(a) + ErrorTexts(b)
  {
  }

  /** Each message is reported exactly when its rule is broken. */
  lemma ErrorIffBroken(pwd: string)
    ensures "Mínimo 6 caracteres" in PolicyErrors(pwd) <==> |pwd| < 6
    ensures "Una mayúscula" in PolicyErrors(pwd) <==> !HasUpper(pwd)
    ensures "Un número" in PolicyErrors(pwd) <==> !HasDigit(pwd)
  {
    PolicyErrorsCases(pwd);
  }

  /** At most three messages, none twice; none at all iff every rule holds. */
  lemma ErrorsDistinct(pwd: string)
    ensures |PolicyErrors(pwd)| <= 3
    ensures Seqs.NoDuplicates(PolicyErrors(pwd))
    ensures PolicyErrors(pwd) == [] <==> |pwd| >= 6 && HasUpper(pwd) && HasDigit(pwd)
  {
    PolicyErrorsCases(pwd);
    ChosenMessagesDistinct(|pwd| < 6, !HasUpper(pwd), !HasDigit(pwd));
  }

  /** Whichever of the three messages are chosen, none appears twice. */
  lemma ChosenMessagesDistinct(short: bool, noUpper: bool, noDigit: bool)
    ensures Seqs.NoDuplicates((if short then ["Mínimo 6 caracteres"] else [])
                              + (if noUpper then ["Una mayúscula"] else [])
                              + (if noDigit then ["Un número"] else []))
  {
    var m, u, d := "Mínimo 6 caracteres", "Una mayúscula", "Un número";
    assert m[0] != u[0] && m[0] != d[0] && u[2] != d[2];
  }

  /** The messages come in the fixed order of the rules. */
  lemma ErrorsInRuleOrder(pwd: string)
    ensures Seqs.IsSubsequence(PolicyErrors(pwd), ["Mínimo 6 caracteres", "Una mayúscula", "Un número"])
  {
    var kept := Seqs.Filter(Rules, Broken(pwd));
    SubsequenceOfRules(kept);
    assert ErrorTexts(Rules) == ["Mínimo 6 caracteres", "Una mayúscula", "Un número"];
  }

  /** The messages of any subsequence of the rules form a subsequence of all three messages. */
  lemma SubsequenceOfRules(kept: seq<Rule>)
    requires Seqs.IsSubsequence(kept, Rules)
    ensures Seqs.IsSubsequence(ErrorTexts(kept), ErrorTexts(Rules))
  {
    MapSubsequence(kept, Rules);
  }

  lemma {:induction false} MapSubsequence(r: seq<Rule>, s: seq<Rule>)
    requires Seqs.IsSubsequence(r, s)
    ensures Seqs.IsSubsequence(ErrorTexts(r), ErrorTexts(s))
    decreases |s|
  {
    if |r| == 0 {
    } else if r[0] == s[0] && Seqs.IsSubsequence(r[1..], s[1..]) {
      MapSubsequence(r[1..], s[1..]);
      assert ErrorTexts(r)[1..] == ErrorTexts(r[1..]);
      assert ErrorTexts(s)[1..] == ErrorTexts(s[1..]);
    } else {
      MapSubsequence(r, s[1..]);
      assert ErrorTexts(s)[1..] == ErrorTexts(s[1..]);
    }
  }

  /** A checklist line: its label and whether it is ticked. */
  datatype Item = Item(text: string, met: bool)

  /** The requirement checklist shown under the form. */
  function Checklist(pwd: string): (items: seq<Item>)
    ensures |items| == |Rules|
  {
    [Item("Mínimo 6 caracteres", |pwd| >= 6),
     Item("Al menos una mayúscula", HasUpper(pwd)),
     Item("Al menos un número", HasDigit(pwd))]
  }

  /** A checklist line is ticked exactly when `validatePassword` does not report its rule. */
  lemma ChecklistAgreesWithErrors(pwd: string)
    ensures forall i :: 0 <= i < |Rules| ==> (Checklist(pwd)[i].met <==> ErrorText(Rules[i]) !in PolicyErrors(pwd))
  {
    ErrorIffBroken(pwd);
  }

  /** `disabled={loading || passwordErrors.length > 0}` */
  function SubmitDisabled(loading: bool, pwd: string): bool
  {
    loading || |PolicyErrors(pwd)| > 0
  }

  /** The button is enabled exactly when nothing is pending and every rule holds. */
  lemma SubmitDisabledIff(loading: bool, pwd: string)
    ensures SubmitDisabled(loading, pwd) <==> loading || |pwd| < 6 || !HasUpper(pwd) || !HasDigit(pwd)
  {
    ErrorsDistinct(pwd);
  }

  /** The mount effect: where it navigates once `ensureRecoverySession` has settled. */
  function MountRedirect(sessionUser: Option<string>): (to: Option<string>)
    ensures to.Some? <==> sessionUser.None?
    ensures to.Some? ==> to.value == "/login"
  {
    match AuthService.EnsureRecoverySession(sessionUser)
    case Raised(_) => Some("/login")
    case Done => None
  }

  /** How `updatePassword` settles: it resolves, rejects with an `Error`, or rejects with some other value. */
  datatype UpdateReply = Updated | Failed(error: ApiError) | NonErrorThrown

  /** The form's state cells that submitting touches. */
  datatype FormState = FormState(password: string, confirmPassword: string, loading: bool, mensaje: string, success: bool)

  /** The effect of one submit. */
  datatype Submitted = Submitted(after: FormState, updateCalled: bool)

  /** `handleResetPassword`, given how `updatePassword` would settle. */
  function AfterSubmit(s: FormState, reply: UpdateReply): (r: Submitted)
  {
    if s.password != s.confirmPassword then Submitted(s.(mensaje := "Las contraseñas no coinciden"), false)
    else if |PolicyErrors(s.password)| > 0 then
      Submitted(s.(mensaje := "La contraseña no cumple los requisitos mínimos"), false)
    else
      match reply
      case Updated => Submitted(s.(loading := false, mensaje := "", success := true), true)
      case Failed(e) =>
        Submitted(s.(loading := false, mensaje := AuthService.UpdatePassword(Some(e)).message, success := false), true)
      case NonErrorThrown =>
        Submitted(s.(loading := false, mensaje := "Error inesperado. Intenta de nuevo.", success := false), true)
  }

  /** A mismatch is reported before the policy is looked at, and nothing is sent. */
  lemma MismatchFirst(s: FormState, reply: UpdateReply)
    requires s.password != s.confirmPassword
    ensures AfterSubmit(s, reply) == Submitted(s.(mensaje := "Las contraseñas no coinciden"), false)
  {
  }

  /** `updatePassword` is called exactly when the two fields agree and the policy holds. */
  lemma UpdateCalledIff(s: FormState, reply: UpdateReply)
    ensures AfterSubmit(s, reply).updateCalled <==>
              s.password == s.confirmPassword && |s.password| >= 6 && HasUpper(s.password) && HasDigit(s.password)
  {
    ErrorsDistinct(s.password);
  }

  /** After a call, `loading` is false and `success` records whether the update went through. */
  lemma CallOutcome(s: FormState, reply: UpdateReply)
    requires AfterSubmit(s, reply).updateCalled
    ensures var a := AfterSubmit(s, reply).after;
            && !a.loading
            && (a.success <==> reply.Updated?)
            && (reply.Failed? ==> a.mensaje == "Error al actualizar contraseña: " + reply.error.message)
            && (reply.NonErrorThrown? ==> a.mensaje == "Error inesperado. Intenta de nuevo.")
  {
  }

  /** The form's state cells. */
  class ResetForm {
    var password: string
    var confirmPassword: string
    var loading: bool
    var mensaje: string
    var success: bool

    function State(): FormState
      reads this
    {
      FormState(password, confirmPassword, loading, mensaje, success)
    }

    constructor ()
      ensures State() == FormState("", "", false, "", false)
    {
      password := "";
      confirmPassword := "";
      loading := false;
      mensaje := "";
      success := false;
    }

    /** `handleResetPassword`; `updateCalled` says whether `updatePassword` was awaited. */
    method HandleResetPassword(reply: UpdateReply) returns (updateCalled: bool)
      modifies this
      ensures State() == AfterSubmit(old(State()), reply).after
      ensures updateCalled == AfterSubmit(old(State()), reply).updateCalled
    {
      if password != confirmPassword {
        mensaje := "Las contraseñas no coinciden";
        return false;
      }
      var passwordErrors := ValidatePassword(password);
      if |passwordErrors| > 0 {
        mensaje := "La contraseña no cumple los requisitos mínimos";
        return false;
      }
      loading := true;
      mensaje := "";
      updateCalled := true;
      match reply {
        case Updated =>
          success := true;
        case Failed(e) =>
          mensaje := AuthService.UpdatePassword(Some(e)).message;
          success := false;
        case NonErrorThrown =>
          mensaje := "Error inesperado. Intenta de nuevo.";
          success := false;
      }
      loading := false;
    }
  }
}
