/** The profile card of the student list: the avatar fallback initials and
    the skill badges, of which at most three are shown, followed by a "+n"
    badge counting the rest. */
module StudentCard {
  import opened Values
  import opened Text

  /** `name.split(" ").map(n => n[0]).join("").toUpperCase().substring(0, 2)`.
      The result is the first one or two word-initial characters of the
      name, upper-cased. */
  function Initials(name: string): (r: string)
    ensures |r| <= 2
    ensures |r| == if |Heads(name, true)| < 2 then |Heads(name, true)| else 2
    ensures r == Upper(Heads(name, true))[..|r|]
    ensures forall i :: 0 <= i < |r| ==> !IsLower(r[i])
  {
    FirstCharsSplit(name);
    Prefix(Upper(FirstChars(Split(name))), 2)
  }

  /** A name that starts with a non-space character shows that character,
      upper-cased, first; a blank name gives no initials. */
  lemma InitialsFirst(name: string)
    ensures |name| > 0 && name[0] != ' ' ==> |Initials(name)| >= 1 && Initials(name)[0] == UpperChar(name[0])
    ensures (forall i :: 0 <= i < |name| ==> name[i] == ' ') ==> Initials(name) == ""
  {
    if forall i :: 0 <= i < |name| ==> name[i] == ' ' {
      BlankHeads(name, true);
    }
  }

  lemma {:induction false} BlankHeads(s: string, atStart: bool)
    requires forall i :: 0 <= i < |s| ==> s[i] == ' '
    ensures Heads(s, atStart) == ""
    decreases |s|
  {
    if |s| > 0 {
      BlankHeads(s[1..], true);
    }
  }

  /** `skills.slice(0, 3)`: the badges shown. */
  function ShownSkills<T>(skills: seq<T>): (shown: seq<T>)
    ensures |shown| == if |skills| < 3 then |skills| else 3
    ensures shown == skills[..|shown|]
    ensures |skills| <= 3 ==> shown == skills
  {
    if |skills| <= 3 then skills else skills[..3]
  }

  /** The "+n" badge: present exactly when there are more than three skills. */
  function Overflow<T>(skills: seq<T>): (badge: Option<nat>)
    ensures badge.Some? <==> |skills| > 3
    ensures badge.Some? ==> badge.value > 0
  {
    if |skills| > 3 then Some(|skills| - 3) else None
  }

  /** Between them the shown badges and the overflow count account for every
      skill exactly once. */
  lemma CardCountsEverySkill<T>(skills: seq<T>)
    ensures |ShownSkills(skills)| + (match Overflow(skills) case Some(n) => n case None => 0) == |skills|
    ensures Overflow(skills).Some? ==> |ShownSkills(skills)| == 3
  {
  }
}
