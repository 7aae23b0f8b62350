/** The error-code table of the API server.

    A code has five decimal digits: one digit of service level (1 for a
    system error, 2 for an ordinary error caused by the user), two digits
    of service module and two digits of error number within the module.
    OK is the one code outside the scheme: it is 0. */
module Errno {

  /** An error number: the code sent to the client and its message. */
  datatype Errno = Errno(code: nat, message: string)

  // Common errors
  const OK: Errno := Errno(0, "OK")
  const InternalServerError: Errno := Errno(10001, "Internal server error.")
  const ErrBind: Errno := Errno(10002, "Error occurred while binding the request body to the struct.")

  // User errors
  const ErrUserNotFound: Errno := Errno(20102, "The user was not found.")

  /** Every error of the table other than OK. */
  const Errors: seq<Errno> := [InternalServerError, ErrBind, ErrUserNotFound]

  const SystemLevel: nat := 1
  const UserLevel: nat := 2

  /** The three fields of a code. */
  datatype CodeParts = CodeParts(level: nat, moduleNo: nat, errorNo: nat)

  /** A level the scheme knows, and a module and an error number of two digits each. */
  predicate WellFormed(p: CodeParts)
  {
    (p.level == SystemLevel || p.level == UserLevel) && p.moduleNo < 100 && p.errorNo < 100
  }

  /** The code written with the three fields as its digits. */
  function Compose(p: CodeParts): nat
  {
    p.level * 10000 + p.moduleNo * 100 + p.errorNo
  }

  /** Quotient and remainder are determined by the equation they satisfy (divisor 100). */
  lemma DivMod100(a: nat, q: nat, r: nat)
    requires r < 100 && a == q * 100 + r
    ensures a / 100 == q && a % 100 == r
  {
  }

  /** Quotient and remainder are determined by the equation they satisfy (divisor 10000). */
  lemma DivMod10000(a: nat, q: nat, r: nat)
    requires r < 10000 && a == q * 10000 + r
    ensures a / 10000 == q && a % 10000 == r
  {
  }

  /** Splits a code into its level, module and error number. */
  function Decompose(code: nat): (p: CodeParts)
    ensures p.moduleNo < 100 && p.errorNo < 100
    ensures Compose(p) == code
  {
    var q := code / 100;
    var r := code % 100;
    DivMod10000(code, q / 100, (q % 100) * 100 + r);
    CodeParts(q / 100, q % 100, r)
  }

  /** Composing a code from two-digit fields and splitting it again gives the fields back. */
  lemma ComposeDecompose(p: CodeParts)
    requires p.moduleNo < 100 && p.errorNo < 100
    ensures Decompose(Compose(p)) == p
  {
    var c := Compose(p);
    DivMod100(c, p.level * 100 + p.moduleNo, p.errorNo);
    DivMod100(p.level * 100 + p.moduleNo, p.level, p.moduleNo);
  }

  /** Two codes of the scheme differ exactly when one of their fields differs. */
  lemma ComposeInjective(p: CodeParts, p': CodeParts)
    requires WellFormed(p) && WellFormed(p')
    ensures Compose(p) == Compose(p') <==> p == p'
  {
    if Compose(p) == Compose(p') {
      ComposeDecompose(p);
      ComposeDecompose(p');
    }
  }

  /** The codes and messages of the table. */
  lemma TableEntries()
    ensures OK.code == 0 && OK.message == "OK"
    ensures InternalServerError.code == 10001 && ErrBind.code == 10002
    ensures ErrUserNotFound.code == 20102
  {
  }

  /** No two entries of the table share a code. */
  lemma CodesDistinct()
    ensures forall i, j :: 0 <= i < j < |Errors| ==> Errors[i].code != Errors[j].code
    ensures forall i :: 0 <= i < |Errors| ==> Errors[i].code != OK.code
  {
  }

  /** Every error other than OK follows the level/module/number scheme. */
  lemma ErrorsFollowScheme()
    ensures forall e :: e in Errors ==> WellFormed(Decompose(e.code)) && Compose(Decompose(e.code)) == e.code
  {
    ComposeDecompose(CodeParts(1, 0, 1));
    ComposeDecompose(CodeParts(1, 0, 2));
    ComposeDecompose(CodeParts(2, 1, 2));
  }

  /** The common errors are system errors of module 00; ErrUserNotFound is a
      user error of module 01. */
  lemma ErrorLevels()
    ensures Decompose(InternalServerError.code) == CodeParts(SystemLevel, 0, 1)
    ensures Decompose(ErrBind.code) == CodeParts(SystemLevel, 0, 2)
    ensures Decompose(ErrUserNotFound.code) == CodeParts(UserLevel, 1, 2)
  {
    ComposeDecompose(CodeParts(1, 0, 1));
    ComposeDecompose(CodeParts(1, 0, 2));
    ComposeDecompose(CodeParts(2, 1, 2));
  }
}
