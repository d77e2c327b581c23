/**
 * The decisions of the two request handlers of main.go, lifted out of
 * the HTTP plumbing: `checkHandler` grades a solution and issues a
 * token, `verifyTokenHandler` checks a token presented later.
 */
module Pipeline {
  import opened Wrappers
  import opened GoStrings
  import opened Canon
  import opened Registry
  import opened Knights
  import opened Tokens

  /** The challenge with many correct answers, checked structurally. */
  const KnightsChallenge := "desafio-13"

  /** The result customTester reports for an accepted knight's tour. */
  const ValidMarker := "validKnightsD13"

  /** The result customTester reports for a rejected knight's tour. */
  const InvalidMarker := "notValidSolution"

  /**
   * customTester (main.go:154-162): the knight's-tour challenge is
   * graded by the structural checker, which reports one of two fixed
   * markers; every other solution is passed on unchanged.
   */
  function CustomTester(challengeId: string, solution: string): (r: Outcome<string>)
    ensures challengeId != KnightsChallenge ==> r == Done(solution)
    ensures challengeId == KnightsChallenge ==>
      (r == Done(ValidMarker) <==> IsTour(Split(solution))) &&
      (r == Panic <==> Verdict(Split(solution)) == Panic) &&
      (r.Done? ==> r.value == ValidMarker || r.value == InvalidMarker)
  {
    if challengeId == KnightsChallenge then
      VerdictAccepts(Split(solution));
      match Verdict(Split(solution))
      case Panic => Panic
      case Done(ok) => if ok then Done(ValidMarker) else Done(InvalidMarker)
    else Done(solution)
  }

  /** The canonical expected output of a challenge that is in the table. */
  function Expected(results: seq<Result>, id: string): string
    requires HasName(results, id)
  {
    Canonical(Lookup(results, id).value.output)
  }

  /** What checkHandler answers. */
  datatype CheckOutcome =
    | Panicked                             // the handler panics inside validKnightsD13
    | UnknownChallenge(id: string)         // HTTP 500, "Desafio inválido"
    | Checked(valid: bool, token: string)  // the JSON reply { "valid": ..., "token": ... }

  /**
   * checkHandler (main.go:53-80). The three form values are canonical
   * before use; customTester runs before the challenge is looked up.
   */
  function Check(md5: Hash, secret: string, results: seq<Result>,
                 challengeId: string, username: string, solution: string): (r: CheckOutcome)
    ensures var id, tested := Canonical(challengeId), CustomTester(Canonical(challengeId), Canonical(solution));
      (r == Panicked <==> tested == Panic) &&
      (r.UnknownChallenge? <==> tested != Panic && !HasName(results, id)) &&
      (r.Checked? ==> HasName(results, id) && (r.valid <==> tested.value == Expected(results, id))) &&
      (r.Checked? && r.valid ==> r.token == TokenOf(md5, Canonical(username), secret, Expected(results, id))) &&
      (r.Checked? && !r.valid ==> r.token == "")
  {
    var id := Canonical(challengeId);
    var user := Canonical(username);
    match CustomTester(id, Canonical(solution))
    case Panic => Panicked
    case Done(tested) =>
      match Lookup(results, id)
      case None => UnknownChallenge(id)
      case Some(result) =>
        var good := Canonical(result.output);
        if tested == good then Checked(true, TokenOf(md5, user, secret, tested))
        else Checked(false, "")
  }

  /** What verifyTokenHandler answers. */
  datatype VerifyOutcome =
    | MissingParameters  // HTTP 400, "Missing parameters"
    | InvalidChallenge   // HTTP 400, "Invalid challenge"
    | InvalidToken       // HTTP 400, "Invalid token"
    | Accepted           // HTTP 200, "OK"

  /**
   * verifyTokenHandler (main.go:84-115): the token must equal the one
   * built from the username and the challenge's expected output.
   */
  function Verify(md5: Hash, secret: string, results: seq<Result>,
                  challengeId: string, username: string, token: string): (r: VerifyOutcome)
    ensures var id, user, presented := Canonical(challengeId), Canonical(username), Canonical(token);
      (r == MissingParameters <==> id == [] || user == [] || presented == []) &&
      (r == InvalidChallenge <==> id != [] && user != [] && presented != [] && !HasName(results, id)) &&
      (r == Accepted <==> id != [] && user != [] && HasName(results, id) &&
                          presented == TokenOf(md5, user, secret, Expected(results, id)))
  {
    var id := Canonical(challengeId);
    var user := Canonical(username);
    var presented := Canonical(token);
    if id == [] || user == [] || presented == [] then MissingParameters
    else
      match Lookup(results, id)
      case None => InvalidChallenge
      case Some(result) =>
        var goodToken := TokenOf(md5, user, secret, Canonical(result.output));
        if presented != goodToken then InvalidToken else Accepted
  }

  /** A single line without blanks at its ends is canonical. */
  lemma CanonicalOfLine(t: string)
    requires '\n' !in t && NoEdgeBlanks(t)
    ensures Canonical(t) == t
  {
    assert Join([t]) == t;
    CanonicalOfJoin([t]);
  }

  /** Tokens contain no blank, so canonicalising a token leaves it unchanged. */
  lemma TokenIsCanonical(md5: Hash, username: string, secret: string, result: string)
    ensures Canonical(TokenOf(md5, username, secret, result)) == TokenOf(md5, username, secret, result)
  {
    var t := TokenOf(md5, username, secret, result);
    forall i | 0 <= i < |t| ensures !IsBlank(t[i]) {
    }
    CanonicalOfLine(t);
  }

  /**
   * The round trip: a token that Check issues is accepted by Verify for
   * the same challenge and username, as long as both are non-empty once
   * canonical.
   */
  lemma IssuedTokenVerifies(md5: Hash, secret: string, results: seq<Result>,
                            challengeId: string, username: string, solution: string, token: string)
    requires Check(md5, secret, results, challengeId, username, solution) == Checked(true, token)
    requires Canonical(challengeId) != [] && Canonical(username) != []
    ensures Verify(md5, secret, results, challengeId, username, token) == Accepted
  {
    var id := Canonical(challengeId);
    TokenIsCanonical(md5, Canonical(username), secret, Expected(results, id));
  }

  /** Verify also accepts the token when the caller passes the already canonical values. */
  lemma IssuedTokenVerifiesCanonical(md5: Hash, secret: string, results: seq<Result>,
                                     challengeId: string, username: string, solution: string, token: string)
    requires Check(md5, secret, results, challengeId, username, solution) == Checked(true, token)
    requires Canonical(challengeId) != [] && Canonical(username) != []
    ensures Verify(md5, secret, results, Canonical(challengeId), Canonical(username), token) == Accepted
  {
    CanonicalIdempotent(challengeId);
    CanonicalIdempotent(username);
    TokenIsCanonical(md5, Canonical(username), secret, Expected(results, Canonical(challengeId)));
  }

  /**
   * Verify accepts the issued token and nothing that differs from it in
   * one character: a changed character is either kept, and the token
   * differs, or trimmed away, and the token is too short.
   */
  lemma MutatedTokenRejected(md5: Hash, secret: string, results: seq<Result>,
                             challengeId: string, username: string, solution: string,
                             token: string, k: nat, c: char)
    requires Check(md5, secret, results, challengeId, username, solution) == Checked(true, token)
    requires k < |token| && c != token[k]
    ensures Verify(md5, secret, results, challengeId, username, token[k := c]) != Accepted
  {
    forall i | 0 <= i < |token| ensures token[i] != '\n' {
    }
    CanonicalLineFixed(token[k := c], token);
  }

  /**
   * verifyTokenHandler canonicalises the token before comparing it, so
   * the issued token with blanks or newlines around it is accepted too.
   */
  lemma PaddedTokenAccepted(md5: Hash, secret: string, results: seq<Result>,
                            challengeId: string, username: string, solution: string,
                            token: string, before: string, after: string)
    requires Check(md5, secret, results, challengeId, username, solution) == Checked(true, token)
    requires Canonical(challengeId) != [] && Canonical(username) != []
    requires Blanks(before, 0, |before|) && Blanks(after, 0, |after|)
    ensures Verify(md5, secret, results, challengeId, username, before + token + after) == Accepted
  {
    IssuedTokenVerifies(md5, secret, results, challengeId, username, solution, token);
    CanonicalIgnoresEdgeBlanks(before, token, after);
  }

  /**
   * With the table expecting the success marker, every knight's tour
   * earns the same reply for a user: a valid result whose token binds
   * the marker, not the path.
   */
  lemma AnyTourSameToken(md5: Hash, secret: string, results: seq<Result>, username: string,
                         tour1: string, tour2: string)
    requires HasName(results, KnightsChallenge) && Expected(results, KnightsChallenge) == ValidMarker
    requires IsTour(Split(Canonical(tour1))) && IsTour(Split(Canonical(tour2)))
    ensures Check(md5, secret, results, KnightsChallenge, username, tour1) ==
            Check(md5, secret, results, KnightsChallenge, username, tour2) ==
            Checked(true, TokenOf(md5, Canonical(username), secret, ValidMarker))
  {
    KnightsIdCanonical();
  }

  /** For every challenge but the knight's tour, a solution passes iff it is the expected output up to blanks. */
  lemma DefaultChallengeCompares(md5: Hash, secret: string, results: seq<Result>,
                                 challengeId: string, username: string, solution: string)
    requires Canonical(challengeId) != KnightsChallenge && HasName(results, Canonical(challengeId))
    ensures var r := Check(md5, secret, results, challengeId, username, solution);
      r.Checked? && (r.valid <==> Canonical(solution) == Expected(results, Canonical(challengeId)))
  {
  }

  lemma KnightsIdCanonical()
    ensures Canonical(KnightsChallenge) == KnightsChallenge
  {
    CanonicalOfLine(KnightsChallenge);
  }

  /**
   * With the table expecting the success marker for the knight's-tour
   * challenge, a solution earns a token exactly when its lines form a
   * tour.
   */
  lemma KnightsChallengeValid(md5: Hash, secret: string, results: seq<Result>,
                              username: string, solution: string)
    requires HasName(results, KnightsChallenge) && Expected(results, KnightsChallenge) == ValidMarker
    requires Verdict(Split(Canonical(solution))) != Panic
    ensures var r := Check(md5, secret, results, KnightsChallenge, username, solution);
      r.Checked? && (r.valid <==> IsTour(Split(Canonical(solution))))
  {
    KnightsIdCanonical();
  }

  /**
   * The panic is reachable through canonicalisation: a canonical
   * solution of 64 different lines whose second line is empty makes
   * checkHandler panic, whatever the table holds.
   */
  lemma CheckCanPanic(md5: Hash, secret: string, results: seq<Result>, username: string)
    ensures exists solution ::
              Canonical(solution) == solution &&
              Check(md5, secret, results, KnightsChallenge, username, solution) == Panicked
  {
    var squares := Squares();
    var lines := [squares[0], ""] + squares[2..];
    assert |lines| == NumSteps;
    SquaresDistinct();
    assert forall k :: 2 <= k < NumSteps ==> lines[k] == squares[k];
    assert Distinct(lines);
    forall k | 0 <= k < |lines| ensures '\n' !in lines[k] && NoEdgeBlanks(lines[k]) {
    }
    var solution := Join(lines);
    JoinEdges(lines);
    CanonicalOfJoin(lines);
    SplitJoin(lines);
    ShortLinePanics(lines, 1);
    KnightsIdCanonical();
    assert Check(md5, secret, results, KnightsChallenge, username, solution) == Panicked;
  }

  /** Blanks around the submitted solution do not change the reply. */
  lemma CheckIgnoresEdgeBlanks(md5: Hash, secret: string, results: seq<Result>,
                               challengeId: string, username: string,
                               before: string, solution: string, after: string)
    requires Blanks(before, 0, |before|) && Blanks(after, 0, |after|)
    ensures Check(md5, secret, results, challengeId, username, before + solution + after) ==
            Check(md5, secret, results, challengeId, username, solution)
  {
    CanonicalIgnoresEdgeBlanks(before, solution, after);
  }

  /** A one-challenge table: "c1" expects "42". */
  function SampleTable(): seq<Result> {
    [Result("c1", "42")]
  }

  /** "  42\n" is accepted for "c1" and bound to the expected output "42". */
  lemma SampleAccepted(md5: Hash, secret: string, username: string)
    ensures Check(md5, secret, SampleTable(), "c1", username, "  42\n") ==
            Checked(true, TokenOf(md5, Canonical(username), secret, "42"))
  {
    CanonicalOfLine("c1");
    CanonicalOfLine("42");
    assert "  42\n" == "  " + "42" + "\n";
    CanonicalIgnoresEdgeBlanks("  ", "42", "\n");
    assert Lookup(SampleTable(), "c1") == Some(Result("c1", "42"));
  }

  /** "43" is rejected for "c1" and no token is issued. */
  lemma SampleRejected(md5: Hash, secret: string, username: string)
    ensures Check(md5, secret, SampleTable(), "c1", username, "43") == Checked(false, "")
  {
    CanonicalOfLine("c1");
    CanonicalOfLine("42");
    CanonicalOfLine("43");
    assert Lookup(SampleTable(), "c1") == Some(Result("c1", "42"));
  }

  /** A challenge that is not in the table is refused for any solution. */
  lemma SampleUnknown(md5: Hash, secret: string, username: string, solution: string)
    ensures Check(md5, secret, SampleTable(), "c99", username, solution) == UnknownChallenge("c99")
  {
    CanonicalOfLine("c99");
    assert !HasName(SampleTable(), "c99");
  }
}
