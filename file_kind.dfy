/**
 * File kinds (file/kind.go): the one kind the server knows, and the LSP language
 * identifier that selects it.
 */
module FileKind {
  import Strconv
  import Strs

  /** A Kind is an int; these are its named values. */
  newtype Kind = int

  const UnknownKind: Kind := 0
  const TypeScript: Kind := 1

  const UnknownKindPrefix := "internal error: unknown file kind "

  /** Kind.String: "typescript", or the internal-error text with the value in decimal. */
  function KindString(k: Kind): string
  {
    if k == TypeScript then "typescript" else UnknownKindPrefix + Strconv.FormatInt(k as int)
  }

  /** KindForLang: "typescript" selects TypeScript, every other language id UnknownKind. */
  function KindForLang(langID: string): (k: Kind)
    ensures k == TypeScript <==> langID == "typescript"
    ensures k != TypeScript ==> k == UnknownKind
  {
    if langID == "typescript" then TypeScript else UnknownKind
  }

  /** A kind's name selects it again only for TypeScript; the internal-error text of any
      other kind selects UnknownKind. */
  lemma KindForLangOfString(k: Kind)
    ensures KindForLang(KindString(k)) == (if k == TypeScript then TypeScript else UnknownKind)
  {
    if k != TypeScript {
      assert KindString(k)[0] == 'i';
    }
  }

  /** Distinct kinds print distinctly, and only TypeScript prints without the prefix. */
  lemma KindStringInjective(j: Kind, k: Kind)
    ensures KindString(j) == KindString(k) ==> j == k
    ensures Strs.HasPrefix(KindString(k), UnknownKindPrefix) <==> k != TypeScript
  {
    var p := |UnknownKindPrefix|;
    if k != TypeScript {
      assert KindString(k)[..p] == UnknownKindPrefix;
    }
    if j != TypeScript && k != TypeScript && KindString(j) == KindString(k) {
      assert KindString(j)[p..] == Strconv.FormatInt(j as int);
      assert KindString(k)[p..] == Strconv.FormatInt(k as int);
      var lo := if j < k then j as int else k as int;
      var hi := if j < k then k as int else j as int;
      Strconv.ParseFormatInt(j as int, lo, hi);
      Strconv.ParseFormatInt(k as int, lo, hi);
    }
  }
}
