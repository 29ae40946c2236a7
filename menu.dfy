/**
  The wrap-around arithmetic of the menu and of the high-score initials entry:
  UP/DOWN move `menu_option` over the three menu entries and `new_initial` over
  'A'..'Z'; LEFT/RIGHT move `initial` over the three initials.
*/
module Menu {
  import opened Constants

  predicate IsOption(m: int) { ONE_PLAYER <= m <= EXIT_GAME }
  predicate IsLetter(c: char) { 'A' <= c <= 'Z' }
  predicate IsSlot(i: int) { 0 <= i <= 2 }

  /** UP on the main screen: the previous entry, from the first back to the last. */
  function MenuUp(m: int): int
  {
    if m - 1 < ONE_PLAYER then EXIT_GAME else m - 1
  }

  /** DOWN on the main screen: the next entry, from the last back to the first. */
  function MenuDown(m: int): int
  {
    if m + 1 > EXIT_GAME then ONE_PLAYER else m + 1
  }

  /** UP while entering initials: the next letter, 'Z' wrapping to 'A'. */
  function NextLetter(c: char): char
    requires IsLetter(c)
  {
    if c as int + 1 > 'Z' as int then 'A' else (c as int + 1) as char
  }

  /** DOWN while entering initials: the previous letter, 'A' wrapping to 'Z'. */
  function PrevLetter(c: char): char
    requires IsLetter(c)
  {
    if c as int - 1 < 'A' as int then 'Z' else (c as int - 1) as char
  }

  /** LEFT while entering initials: the previous slot, 0 wrapping to 2. */
  function SlotLeft(i: int): int
  {
    if i - 1 < 0 then 2 else i - 1
  }

  /** RIGHT while entering initials: the next slot, 2 wrapping to 0. */
  function SlotRight(i: int): int
  {
    if i + 1 > 2 then 0 else i + 1
  }

  // ---------------------------------------------------------------------
  // Properties

  /** The menu cursor stays on an entry, and UP and DOWN undo each other. */
  lemma MenuStaysInRange(m: int)
    requires IsOption(m)
    ensures IsOption(MenuUp(m)) && IsOption(MenuDown(m))
    ensures MenuDown(MenuUp(m)) == m && MenuUp(MenuDown(m)) == m
    ensures MenuUp(m) != m && MenuDown(m) != m
  {
  }

  /** Three UPs (or three DOWNs) bring the cursor back to where it started. */
  lemma MenuCycles(m: int)
    requires IsOption(m)
    ensures MenuUp(MenuUp(MenuUp(m))) == m
    ensures MenuDown(MenuDown(MenuDown(m))) == m
  {
  }

  /** The letter stays in 'A'..'Z', and UP and DOWN undo each other. */
  lemma LetterStaysInRange(c: char)
    requires IsLetter(c)
    ensures IsLetter(NextLetter(c)) && IsLetter(PrevLetter(c))
    ensures PrevLetter(NextLetter(c)) == c && NextLetter(PrevLetter(c)) == c
    ensures NextLetter(c) != c && PrevLetter(c) != c
  {
  }

  /** The slot stays in 0..2, and LEFT and RIGHT undo each other. */
  lemma SlotStaysInRange(i: int)
    requires IsSlot(i)
    ensures IsSlot(SlotLeft(i)) && IsSlot(SlotRight(i))
    ensures SlotRight(SlotLeft(i)) == i && SlotLeft(SlotRight(i)) == i
  {
  }

  /** An UP followed by a DOWN on slot `i` restores both the current letter and
      the whole initials string, when the current letter is the one in that slot. */
  lemma UpThenDownRestoresInitials(s: string, i: int, c: char)
    requires |s| == 3 && IsSlot(i) && IsLetter(c) && s[i] == c
    ensures var up := NextLetter(c);
            var down := PrevLetter(up);
            down == c && s[i := up][i := down] == s
  {
    LetterStaysInRange(c);
  }
}
