/** A text file with a hand-written head and a managed tail. The head is found again by cutting
    at the first of two substrings, a marker line and a section header.

    The facts hold of any two such substrings without line breaks. */
module ManagedText {
  import opened Text

  datatype Layout = Layout(marker: string, header: string) {

    predicate Valid() {
      && marker != "" && header != ""
      && '\n' !in marker && '\r' !in marker
      && '\n' !in header
    }

    /** Where the managed part starts: the marker or the first header, whichever is first. */
    function Cut(content: string): (cut: nat)
      ensures cut <= |content|
      ensures forall i: nat | i < cut :: !OccursAt(content, marker, i) && !OccursAt(content, header, i)
      ensures cut < |content| ==> OccursAt(content, marker, cut) || OccursAt(content, header, cut)
      ensures cut == |content| && marker != "" && header != "" ==> Free(content, marker) && Free(content, header)
    {
      match (Find(content, marker), Find(content, header))
      case (None, None) => |content|
      case (Some(m), None) => m
      case (None, Some(p)) => p
      case (Some(m), Some(p)) => if m <= p then m else p
    }

    /** What stands above the managed part, right-stripped, with one newline. */
    function Head(content: string): string {
      Rstrip(content[..Cut(content)]) + "\n"
    }

    /** The file with the given head and managed body. */
    function Print(head: string, body: string): string {
      Rstrip(head) + "\n\n" + marker + "\n" + body
    }

    /** What a head must be for the reader to find it again. */
    predicate Clean(head: string) {
      Free(head, marker) && Free(head, header) && '\r' !in head
    }

    /** A pattern that occurs no earlier than the two newlines after `b`, and not straddling
        them, does not occur in `b` or at the newlines. */
    lemma NotBefore(b: string, last: string, pattern: string, i: nat)
      requires pattern != "" && '\n' !in pattern && Free(b, pattern) && i < |b| + 2
      ensures !OccursAt(b + "\n\n" + last, pattern, i)
    {
      var content := b + "\n\n" + last;
      var below := "" + ['\n'] + last;
      assert content == b + ['\n'] + below;
      if OccursAt(content, pattern, i) {
        NoStraddle(b, '\n', below, pattern, i);
        NoStraddle("", '\n', last, pattern, i - |b| - 1);
      }
    }

    /** No marker and no header is found before the marker the printer put there, not even one
        that straddles the end of the head. */
    lemma CutOfPrint(b: string, rest: string)
      requires Valid() && Clean(b)
      ensures Cut(b + "\n\n" + (marker + "\n" + rest)) == |b| + 2
    {
      var last := marker + "\n" + rest;
      var content := b + "\n\n" + last;
      assert content[|b| + 2..|b| + 2 + |marker|] == marker;
      assert OccursAt(content, marker, |b| + 2);
      forall i: nat | i < |b| + 2
        ensures !OccursAt(content, marker, i) && !OccursAt(content, header, i)
      {
        NotBefore(b, last, marker, i);
        NotBefore(b, last, header, i);
      }
    }

    lemma PrintParts(b: string, rest: string)
      ensures b + "\n\n" + marker + "\n" + rest == b + "\n\n" + (marker + "\n" + rest)
    {
    }

    /** Reading a printed file back gives the right-stripped head and one newline. */
    lemma HeadOfPrint(head: string, body: string)
      requires Valid() && Clean(head)
      ensures Head(Universal(Print(head, body))) == Rstrip(head) + "\n"
    {
      var b := Rstrip(head);
      FreePrefix(head, b, marker);
      FreePrefix(head, b, header);
      assert forall x :: x in b ==> x in head;
      var top := b + "\n\n" + marker + "\n";
      UniversalPrefix(top, body);
      var rest := Universal(body);
      var content := top + rest;
      PrintParts(b, rest);
      CutOfPrint(b, rest);
      assert content[..|b| + 2] == b + "\n\n";
      RstripAppend(b, "\n\n");
      RstripUnique(b, b);
    }

    /** A pattern without a newline that occurs in a kept line-ended prefix occurs in it. */
    lemma NotInHead(content: string, kept: string, pattern: string)
      requires pattern != "" && '\n' !in pattern && kept <= content
      requires forall i: nat | i <= |kept| :: !OccursAt(content, pattern, i) || |kept| < i + |pattern|
      ensures Free(kept + "\n", pattern)
    {
      forall i: nat | i <= |kept + "\n"| ensures !OccursAt(kept + "\n", pattern, i) {
        if OccursAt(kept + "\n", pattern, i) {
          assert kept + "\n" == kept + ['\n'] + "";
          NoStraddle(kept, '\n', "", pattern, i);
          assert kept[i..i + |pattern|] == content[i..i + |pattern|];
          assert OccursAt(content, pattern, i);
        }
      }
    }

    /** Every head the reader returns can be printed and found again. */
    lemma HeadIsClean(text: string)
      requires Valid()
      ensures Clean(Head(Universal(text)))
      ensures Rstrip(Head(Universal(text))) + "\n" == Head(Universal(text))
    {
      var content := Universal(text);
      var cut := Cut(content);
      var kept := Rstrip(content[..cut]);
      assert |kept| <= cut;
      NotInHead(content, kept, marker);
      NotInHead(content, kept, header);
      assert forall x :: x in kept ==> x in content;
      RstripAppend(kept, "\n");
      RstripUnique(kept, kept);
    }

    /** Rewriting the body keeps the head, and what a later rewrite produces does not depend on
        the rewrites before it. */
    lemma RewriteKeepsHead(text: string, body: string, later: string)
      requires Valid()
      ensures var written := Print(Head(Universal(text)), body);
              && Head(Universal(written)) == Head(Universal(text))
              && Print(Head(Universal(written)), later) == Print(Head(Universal(text)), later)
    {
      HeadIsClean(text);
      HeadOfPrint(Head(Universal(text)), body);
    }
  }
}
