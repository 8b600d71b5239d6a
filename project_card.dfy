/**
 * What a dashboard project card derives from its project
 * (src/components/dashboard/project-card.tsx): the member count with the Russian
 * plural of "участник", the status badge and the creator-only delete button.
 */
module ProjectCard {
  import opened Text

  /** JavaScript's `a % b` for a positive divisor: the remainder takes the sign of `a`. */
  function JsRem(a: int, b: int): (r: int)
    requires b > 0
    ensures a >= 0 ==> r == a % b
    ensures -b < r < b
  {
    if a >= 0 then a % b else -((-a) % b)
  }

  /** The word form `getMembersText` picks for a count. */
  function MemberWord(count: int): (r: string)
    ensures r == "участник" || r == "участника" || r == "участников"
  {
    var d, h := JsRem(count, 10), JsRem(count, 100);
    if d == 1 && h != 11 then "участник"
    else if d in {2, 3, 4} && h !in {12, 13, 14} then "участника"
    else "участников"
  }

  /** `getMembersText`: the decimal count, a space and the word form. */
  function MembersText(count: int): (r: string)
    ensures var n := IntToString(count); |n| < |r| && r[..|n|] == n && r[|n|] == ' '
    ensures r[|IntToString(count)| + 1..] == MemberWord(count)
  {
    var r := IntToString(count) + " " + MemberWord(count);
    assert r[..|IntToString(count)|] == IntToString(count);
    assert r[|IntToString(count)| + 1..] == MemberWord(count);
    r
  }

  /** The three forms as the rule states them, for every count a project can have. */
  lemma MemberWordIff(count: nat)
    ensures MemberWord(count) == "участник" <==> count % 10 == 1 && count % 100 != 11
    ensures MemberWord(count) == "участника" <==>
              count % 10 in {2, 3, 4} && count % 100 !in {12, 13, 14}
    ensures MemberWord(count) == "участников" <==>
              !(count % 10 == 1 && count % 100 != 11) && !(count % 10 in {2, 3, 4} && count % 100 !in {12, 13, 14})
  {
  }

  /** The last digit is the last digit of the last two digits. */
  lemma JsRemTens(count: int)
    ensures JsRem(count, 10) == JsRem(JsRem(count, 100), 10)
  {
    var a := if count >= 0 then count else -count;
    LastDigit(a);
  }

  lemma LastDigit(a: nat)
    ensures a % 10 == (a % 100) % 10
  {
    var q, r := a / 100, a % 100;
    var t, u := r / 10, r % 10;
    assert a == 100 * q + r;
    assert r == 10 * t + u;
    assert a == 10 * (10 * q + t) + u;
    Remainder10(a, 10 * q + t, u);
  }

  lemma Remainder10(a: int, k: int, m: int)
    requires a == 10 * k + m && 0 <= m < 10
    ensures a % 10 == m
  {
  }

  /** The chosen form depends on the count only through its last two digits (with their sign). */
  lemma WordDependsOnLastTwoDigits(c1: int, c2: int)
    requires JsRem(c1, 100) == JsRem(c2, 100)
    ensures MemberWord(c1) == MemberWord(c2)
  {
    JsRemTens(c1);
    JsRemTens(c2);
  }

  /**
   * The integer case of the Russian plural categories of the Unicode CLDR
   * (UTS #35 Part 3, section 5, "Language Plural Rules"): "one" for
   * i % 10 = 1 and i % 100 != 11; "few" for i % 10 = 2..4 and i % 100 != 12..14;
   * "many" for i % 10 = 0, i % 10 = 5..9 or i % 100 = 11..14; "other" otherwise.
   */
  datatype PluralCategory = One | Few | Many | Other

  function RussianCategory(i: nat): PluralCategory {
    if i % 10 == 1 && i % 100 != 11 then One
    else if 2 <= i % 10 <= 4 && !(12 <= i % 100 <= 14) then Few
    else if i % 10 == 0 || 5 <= i % 10 <= 9 || 11 <= i % 100 <= 14 then Many
    else Other
  }

  /** The word form of each category. */
  function CategoryWord(c: PluralCategory): string {
    match c
    case One => "участник"
    case Few => "участника"
    case Many | Other => "участников"
  }

  /**
   * `getMembersText` agrees with the CLDR rule on every count, and for integers
   * the "other" category never arises: one, few and many cover all counts.
   */
  lemma MatchesCldr(count: nat)
    ensures RussianCategory(count) != Other
    ensures MemberWord(count) == CategoryWord(RussianCategory(count))
  {
    var d, h := count % 10, count % 100;
    JsRemTens(count);
    assert h % 10 == d;
    if 11 <= h <= 14 {
      assert d == h - 10;
    }
  }

  /** The usual examples: 1, 21 and 101 take "участник"; 2-4 and 22 "участника"; 0, 5-20 and 111 "участников". */
  lemma MemberWordExamples()
    ensures MemberWord(1) == "участник" && MemberWord(21) == "участник" && MemberWord(101) == "участник"
    ensures MemberWord(2) == "участника" && MemberWord(4) == "участника" && MemberWord(22) == "участника"
    ensures MemberWord(0) == "участников" && MemberWord(111) == "участников"
    ensures forall c :: 5 <= c <= 20 ==> MemberWord(c) == "участников"
  {
    forall c | 5 <= c <= 20
      ensures MemberWord(c) == "участников"
    {
      MemberWordIff(c);
    }
  }

  /** The rendered text for one concrete count. */
  lemma MembersTextExample()
    ensures MembersText(1) == "1 участник" && MembersText(12) == "12 участников"
  {
    assert IntToString(1) == "1";
    assert NatToString(12) == NatToString(1) + [DigitChar(2)];
    assert IntToString(12) == "12";
    assert MemberWord(1) == "участник";
    assert MemberWord(12) == "участников";
  }

  /** The badge text for `project.status`: anything but ACTIVE or COMPLETED reads "Архивирован". */
  function ProjectStatusLabel(status: string): (r: string)
    ensures r == "Активный" <==> status == "ACTIVE"
    ensures r == "Завершен" <==> status == "COMPLETED"
    ensures r == "Архивирован" <==> status != "ACTIVE" && status != "COMPLETED"
  {
    if status == "ACTIVE" then "Активный"
    else if status == "COMPLETED" then "Завершен"
    else "Архивирован"
  }

  /** Only the project's creator sees the delete button. */
  predicate DeleteButtonVisible(creatorId: string, userId: string) {
    creatorId == userId
  }

  /** The card's own state around the delete confirmation. */
  datatype DeleteReply = DeleteResponse(ok: bool) | DeleteNetworkError

  class Card {
    var showDeleteDialog: bool
    var isDeleting: bool

    constructor ()
      ensures !showDeleteDialog && !isDeleting
    {
      showDeleteDialog := false;
      isDeleting := false;
    }

    /** The trash button opens the confirmation dialog; it exists only for the creator. */
    method AskDelete(creatorId: string, userId: string)
      requires DeleteButtonVisible(creatorId, userId)
      modifies this`showDeleteDialog
      ensures showDeleteDialog
    {
      showDeleteDialog := true;
    }

    /** `handleDelete`: the list is refreshed only after an ok reply; the dialog closes on every path. */
    method Delete(reply: DeleteReply) returns (refresh: bool)
      modifies this
      ensures refresh <==> reply == DeleteResponse(true)
      ensures !isDeleting && !showDeleteDialog
    {
      isDeleting := true;
      refresh := reply.DeleteResponse? && reply.ok;
      isDeleting := false;
      showDeleteDialog := false;
    }
  }
}
