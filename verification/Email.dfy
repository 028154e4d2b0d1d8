/** The normal form of an e-mail. */
module Email {
  import N = Normalising

  /** Lower-casings and blanks for which the lemmas of `Normalising` hold. */
  type RegularCasing = al: N.Casing | N.Regular(al)
    witness N.Latin()

  /** JavaScript's `toLowerCase` and `trim`: nothing is known of them but that they are regular. */
  const JAVASCRIPT: RegularCasing

  function Normalise(email: string): string {
    N.Normalise(JAVASCRIPT, email)
  }

  /** Two e-mails are variants of one another: between blanks, they differ at most in case. */
  ghost predicate Variant(a: string, b: string) {
    N.Variant(JAVASCRIPT, a, b)
  }

  /** Normalising twice is normalising once. */
  lemma NormaliseIdempotent(email: string)
    ensures Normalise(Normalise(email)) == Normalise(email)
  {
    N.NormaliseIdempotent(JAVASCRIPT, email);
  }

  /** Two e-mails share their normal form exactly when they differ only in case and padding. */
  lemma SameNormalFormIffVariant(a: string, b: string)
    ensures Normalise(a) == Normalise(b) <==> Variant(a, b)
  {
    N.SameNormalFormIffVariant(JAVASCRIPT, a, b);
  }
}
