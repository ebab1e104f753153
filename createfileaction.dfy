/**
 * `GoCreateFileAction`: the "New Go File" action's name validator, the
 * `PACKAGE` template property it derives from the directory name, and its
 * equality.
 */
module CreateFileAction {
  import opened Options
  import opened JavaStrings

  const ERROR := " is not a valid Go file name"

  /** `GoNamesValidator.isIdentifier` (for the current project) and `FileUtil.sanitizeFileName`. */
  datatype NameServices = NameServices(isIdentifier: string -> bool, sanitizeFileName: string -> string)

  /** A valid file name: an identifier that sanitising leaves unchanged. */
  predicate IsValidFileName(names: NameServices, s: string) {
    names.isIdentifier(s) && names.sanitizeFileName(s) == s
  }

  /** `checkInput`: every input may be typed. */
  function CheckInput(inputString: string): (r: bool)
    ensures r
  {
    true
  }

  /** `getErrorText`: null for empty input and for a valid file name, the error message otherwise. */
  function GetErrorText(names: NameServices, inputString: string): Option<string> {
    if inputString == [] then None
    else if names.isIdentifier(inputString) && names.sanitizeFileName(inputString) == inputString then None
    else Some("'" + inputString + "'" + ERROR)
  }

  /** `canClose`: the input is not blank and has no error text. */
  function CanClose(names: NameServices, inputString: string): bool {
    !IsEmptyOrSpaces(inputString) && GetErrorText(names, inputString).None?
  }

  /** No error text exactly for the empty input and for valid file names. */
  lemma ErrorTextAbsentIff(names: NameServices, s: string)
    ensures GetErrorText(names, s).None? <==> s == [] || IsValidFileName(names, s)
  {
  }

  /** Any other input gets `'<input>' is not a valid Go file name`. */
  lemma ErrorTextMessage(names: NameServices, s: string)
    requires s != [] && !IsValidFileName(names, s)
    ensures GetErrorText(names, s) == Some("'" + s + "' is not a valid Go file name")
    ensures var m := GetErrorText(names, s).value; m[0] == '\'' && m[1..|s| + 1] == s && m[|s| + 1..] == "' is not a valid Go file name"
  {
    assert "'" + ERROR == "' is not a valid Go file name";
    assert "'" + s + "'" + ERROR == "'" + s + ("'" + ERROR);
  }

  /** The dialog closes exactly on a valid, non-blank file name. */
  lemma CanCloseIff(names: NameServices, s: string)
    ensures CanClose(names, s) <==> !IsEmptyOrSpaces(s) && IsValidFileName(names, s)
    ensures CanClose(names, s) ==> s != [] && GetErrorText(names, s).None?
  {
    if s == [] {
      assert IsEmptyOrSpaces(s);
    }
  }

  /** Empty or blank input never closes the dialog, whatever the name services say. */
  lemma BlankNeverCloses(names: NameServices, s: string)
    requires IsEmptyOrSpaces(s)
    ensures !CanClose(names, s)
  {
  }

  /** The `PACKAGE` property: the last `-`-separated piece of the directory name, or null if there is none. */
  function PackageProperty(directoryName: string): Option<string> {
    LastItem(Split(directoryName, '-'))
  }

  /** A package name is never empty and never holds `-`. */
  lemma PackagePropertyIsClean(directoryName: string)
    ensures PackageProperty(directoryName).Some? ==>
      var p := PackageProperty(directoryName).value; p != [] && '-' !in p
  {
    SplitPiecesAreClean(directoryName, '-', "");
  }

  /** `getLastItem` returns null exactly for a directory name made only of dashes (or empty). */
  lemma PackagePropertyAbsentIff(directoryName: string)
    ensures PackageProperty(directoryName).None? <==> forall i | 0 <= i < |directoryName| :: directoryName[i] == '-'
  {
    SplitEmptyIff(directoryName, '-', "");
  }

  /** The piece after the last dash, whatever dashes trail it, is the package name. */
  lemma PackagePropertyAfterLastDash(prefix: string, p: string, trailing: nat)
    requires p != [] && '-' !in p
    ensures PackageProperty(prefix + "-" + p + Repeat('-', trailing)) == Some(p)
  {
    SplitTrailingSeparators(prefix + "-" + p, '-', trailing);
    SplitEndsWithPiece(prefix, p, '-', "");
  }

  /** A directory name without dashes is its own package name (up to trailing dashes). */
  lemma PackagePropertyWithoutDash(p: string, trailing: nat)
    requires p != [] && '-' !in p
    ensures PackageProperty(p + Repeat('-', trailing)) == Some(p)
  {
    SplitTrailingSeparators(p, '-', trailing);
    SplitLastPiece(p, '-', "");
    assert "" + p == p;
  }

  /** What `equals` may be handed: null, an instance of the action, or any other object. */
  datatype AnyObject = CreateFileActionInstance(instance: nat) | OtherObject(instance: nat)

  /** `equals` on the instance `self`: true for every instance of the action, false for null and anything else. */
  function Equals(self: nat, obj: Option<AnyObject>): (r: bool)
    ensures r <==> obj.Some? && obj.value.CreateFileActionInstance?
  {
    match obj
    case Some(CreateFileActionInstance(_)) => true
    case _ => false
  }

  /** `hashCode` on the instance `self`. */
  function HashCode(self: nat): (h: int)
    ensures h == 0
  {
    0
  }

  /**
   * Any two instances are equal to each other, agree on every other object,
   * and have equal hash codes, as the `Object` contract asks of equal objects.
   */
  lemma EqualsAgreesWithHashCode(a: nat, b: nat, obj: Option<AnyObject>)
    ensures Equals(a, Some(CreateFileActionInstance(b))) && Equals(b, Some(CreateFileActionInstance(a)))
    ensures Equals(a, obj) == Equals(b, obj)
    ensures HashCode(a) == HashCode(b)
    ensures !Equals(a, None)
  {
  }
}
