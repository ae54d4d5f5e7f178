/** Normalising the names of directories and files. */
module Names {

  const LOST: char := '\U{FFFD}'

  /** What to do about a name. */
  datatype Decision = Yes(from: string, to: string) | Not(name: string) | NeedRestore

  predicate Allowed(c: char) {
    'a' <= c <= 'z' || 'A' <= c <= 'Z' || '0' <= c <= '9' || c == '_' || c == '.'
  }

  function TrimDashes(s: string): (r: string)
    ensures r == "" || r[0] != '-'
  {
    if s != "" && s[0] == '-' then TrimDashes(s[1..]) else s
  }

  lemma {:induction false} TrimmedPart(s: string)
    ensures var r := TrimDashes(s);
            && |r| <= |s| && s[|s| - |r|..] == r
            && forall i :: 0 <= i < |s| - |r| ==> s[i] == '-'
  {
    if s != "" && s[0] == '-' {
      TrimmedPart(s[1..]);
    }
  }

  function ReplaceDisallowed(s: string): (r: string)
    ensures |r| == |s|
    ensures forall i :: 0 <= i < |s| ==> Allowed(r[i]) && (Allowed(s[i]) ==> r[i] == s[i]) && (!Allowed(s[i]) ==> r[i] == '_')
  {
    seq(|s|, i requires 0 <= i < |s| => if Allowed(s[i]) then s[i] else '_')
  }

  function ReplaceLost(s: string): (r: string)
    ensures |r| == |s|
    ensures forall i :: 0 <= i < |s| ==>
              r[i] != LOST && (s[i] != LOST ==> r[i] == s[i]) && (s[i] == LOST ==> r[i] == '_') && (s[i] != '-' ==> r[i] != '-')
  {
    seq(|s|, i requires 0 <= i < |s| => if s[i] == LOST then '_' else s[i])
  }

  /** The name without leading dashes and with every other forbidden character replaced. */
  function CleanName(name: string): string {
    ReplaceDisallowed(TrimDashes(name))
  }

  /** NormalizePathUtf8: `isNew` gives a nameless directory a random name instead of its old one. */
  function NormalizeDir(name: string, isNew: bool, random: string): Decision {
    var newName := CleanName(name);
    if newName != "" then
      if name != newName then Yes(name, newName) else Not(newName)
    else if isNew then Yes(name, "INVALID_NAME-" + random)
    else NeedRestore
  }

  /** NormalizeFileUtf8 */
  function NormalizeFile(name: string, random: string): Decision {
    var trimmed := ReplaceLost(TrimDashes(name));
    var newName := if trimmed != "" then trimmed else random + ".unknown";
    if name != newName then Yes(name, newName) else Not(newName)
  }

  /** The name once the decision is carried out. */
  function Outcome(name: string, d: Decision): string {
    if d.Yes? then d.to else name
  }

  ghost predicate HasNonDash(name: string) {
    exists i :: 0 <= i < |name| && name[i] != '-'
  }

  /** Names a directory may keep. */
  predicate CleanDir(name: string) {
    name != "" && forall i :: 0 <= i < |name| ==> Allowed(name[i])
  }

  /** Names a file may keep. */
  predicate CleanFile(name: string) {
    name != "" && name[0] != '-' && forall i :: 0 <= i < |name| ==> name[i] != LOST
  }

  /** `clean` is `name` without its leading dashes and with '_' for every character that a file, or a
      directory, may not have. */
  ghost predicate CleanedFrom(name: string, clean: string, file: bool) {
    exists k :: 0 <= k < |name| && CleanedAt(name, clean, file, k)
  }

  ghost predicate CleanedAt(name: string, clean: string, file: bool, k: int)
    requires 0 <= k < |name|
  {
    && name[k] != '-' && |clean| == |name| - k
    && (forall i :: 0 <= i < k ==> name[i] == '-')
    && forall i :: 0 <= i < |clean| ==>
         clean[i] == if (if file then name[k + i] == LOST else !Allowed(name[k + i])) then '_' else name[k + i]
  }

  lemma CleanedNames(name: string)
    requires HasNonDash(name)
    ensures CleanedFrom(name, ReplaceDisallowed(TrimDashes(name)), false)
    ensures CleanedFrom(name, ReplaceLost(TrimDashes(name)), true)
  {
    var r := TrimDashes(name);
    TrimmedPart(name);
    TrimmedAway(name);
    var k := |name| - |r|;
    assert forall i :: 0 <= i < |r| ==> name[k + i] == r[i];
    assert name[k + 0] == r[0];
    assert CleanedAt(name, ReplaceDisallowed(r), false, k);
    assert CleanedAt(name, ReplaceLost(r), true, k);
  }

  lemma TrimmedAway(name: string)
    ensures TrimDashes(name) == "" <==> !HasNonDash(name)
    ensures name != "" && name[0] != '-' ==> TrimDashes(name) == name
  {
    var r := TrimDashes(name);
    TrimmedPart(name);
    if r != "" {
      assert name[|name| - |r|] == r[0];
    }
  }

  lemma CleanDirKept(name: string)
    requires CleanDir(name)
    ensures ReplaceDisallowed(TrimDashes(name)) == name && HasNonDash(name)
  {
    assert Allowed(name[0]) && name[0] != '-';
    TrimmedAway(name);
  }

  lemma CleanFileKept(name: string)
    requires CleanFile(name)
    ensures ReplaceLost(TrimDashes(name)) == name && HasNonDash(name)
  {
    TrimmedAway(name);
  }

  /** A directory keeps its name exactly when it is clean, is asked back exactly when it is all dashes
      and not new, and otherwise gets a name that is clean unless it is the random fallback. */
  lemma DirDecision(name: string, isNew: bool, random: string)
    ensures var d := NormalizeDir(name, isNew, random);
            && (d == Not(name) <==> CleanDir(name))
            && (d.Not? ==> d.name == name)
            && (d.NeedRestore? <==> !HasNonDash(name) && !isNew)
            && (d.Yes? ==> d.from == name)
            && (HasNonDash(name) ==> CleanDir(CleanName(name)) && Outcome(name, d) == CleanName(name))
            && (!HasNonDash(name) && isNew ==> Outcome(name, d) == "INVALID_NAME-" + random)
  {
    TrimmedAway(name);
    if CleanDir(name) {
      CleanDirKept(name);
    } else if HasNonDash(name) {
      assert CleanDir(ReplaceDisallowed(TrimDashes(name)));
    }
  }

  lemma UncleanChanges(name: string)
    requires HasNonDash(name) && !CleanDir(name)
    ensures CleanName(name) != name && CleanDir(CleanName(name))
  {
    DirDecision(name, false, "");
  }

  /** Normalising a new directory again settles after at most two renames, and after one exactly when
      the name has a character that is not a dash. */
  lemma DirSettles(name: string, r1: string, again: bool, r2: string, last: bool, r3: string)
    ensures var n1 := Outcome(name, NormalizeDir(name, true, r1));
            var n2 := Outcome(n1, NormalizeDir(n1, again, r2));
            && (NormalizeDir(n1, again, r2) == Not(n1) <==> HasNonDash(name))
            && NormalizeDir(n2, last, r3) == Not(n2)
  {
    DirDecision(name, true, r1);
    var n1 := Outcome(name, NormalizeDir(name, true, r1));
    FallbackName(r1);
    DirDecision(n1, again, r2);
    if CleanDir(n1) {
      CleanDirKept(n1);
    }
    DirDecision(Outcome(n1, NormalizeDir(n1, again, r2)), last, r3);
  }

  /** The names new directories get that have nothing else to be called by. */
  predicate IsFallback(name: string) {
    "INVALID_NAME-" <= name
  }

  /** The random directory name holds a dash, so it is not clean. */
  lemma FallbackName(random: string)
    ensures IsFallback("INVALID_NAME-" + random)
    ensures !CleanDir("INVALID_NAME-" + random) && HasNonDash("INVALID_NAME-" + random)
  {
    FallbackUnclean("INVALID_NAME-" + random);
  }

  lemma FallbackUnclean(name: string)
    requires IsFallback(name)
    ensures !CleanDir(name) && HasNonDash(name)
  {
    assert name[0] == "INVALID_NAME-"[0] && name[12] == "INVALID_NAME-"[12];
  }

  lemma FileDecision(name: string, random: string)
    ensures var d := NormalizeFile(name, random);
            && (HasNonDash(name) ==> (d == Not(name) <==> CleanFile(name)))
            && (CleanFile(name) ==> d == Not(name))
            && (d.Not? ==> d.name == name)
            && !d.NeedRestore?
            && (d.Yes? ==> d.from == name)
            && (HasNonDash(name) ==> CleanFile(Outcome(name, d)))
            && (!HasNonDash(name) ==> Outcome(name, d) == random + ".unknown")
  {
    TrimmedAway(name);
    if CleanFile(name) {
      CleanFileKept(name);
    } else if HasNonDash(name) {
      assert CleanFile(ReplaceLost(TrimDashes(name)));
    }
  }

  /** Normalising a file again settles after at most two renames, and after one exactly when the name
      has a character that is not a dash or the random fallback is itself clean. */
  lemma FileSettles(name: string, r1: string, r2: string, r3: string)
    ensures var n1 := Outcome(name, NormalizeFile(name, r1));
            var n2 := Outcome(n1, NormalizeFile(n1, r2));
            && (NormalizeFile(n1, r2) == Not(n1) <==> HasNonDash(name) || CleanFile(r1 + ".unknown"))
            && NormalizeFile(n2, r3) == Not(n2)
  {
    FileDecision(name, r1);
    var n1 := Outcome(name, NormalizeFile(name, r1));
    UnknownName(r1);
    if CleanFile(n1) {
      CleanFileKept(n1);
    }
    FileDecision(n1, r2);
    FileDecision(Outcome(n1, NormalizeFile(n1, r2)), r3);
  }

  lemma UnknownName(random: string)
    ensures HasNonDash(random + ".unknown")
  {
    assert (random + ".unknown")[|random|] == ".unknown"[0];
  }
}
