/** The cardholder-name rule `ValidateOwner`: one to three purely alphabetic
    words, separated by exactly one space each, with nothing before the first
    word or after the last. */
module Owner {

  predicate IsLetter(c: char) {
    'A' <= c <= 'Z' || 'a' <= c <= 'z'
  }

  /** A word of a name: at least one character, letters only. */
  predicate IsWord(w: string) {
    |w| > 0 && forall i :: 0 <= i < |w| ==> IsLetter(w[i])
  }

  /** The pieces of `s` between single spaces; a run of k spaces yields k - 1
      empty pieces and a leading or trailing space an empty first or last one. */
  function Split(s: string): (ws: seq<string>)
    ensures |ws| >= 1
  {
    if s == [] then [[]]
    else
      var rest := Split(s[1..]);
      if s[0] == ' ' then [[]] + rest else [[s[0]] + rest[0]] + rest[1..]
  }

  /** The words of `ws` written one after another with one space between. */
  function Join(ws: seq<string>): (s: string)
    requires |ws| >= 1
  {
    if |ws| == 1 then ws[0] else ws[0] + " " + Join(ws[1..])
  }

  predicate ValidateOwner(owner: string) {
    var ws := Split(owner);
    |ws| <= 3 && forall i :: 0 <= i < |ws| ==> IsWord(ws[i])
  }

  /** Reference reading of the rule: the name is one, two or three words
      joined by single spaces. */
  ghost predicate IsOwnerName(s: string) {
    exists ws: seq<string> :: 1 <= |ws| <= 3 && (forall i :: 0 <= i < |ws| ==> IsWord(ws[i])) && s == Join(ws)
  }

  lemma {:induction false} JoinSplit(s: string)
    ensures Join(Split(s)) == s
  {
    if s != [] {
      var rest := Split(s[1..]);
      JoinSplit(s[1..]);
      if s[0] == ' ' {
        assert Split(s)[1..] == rest;
      } else if |rest| == 1 {
        assert Split(s) == [[s[0]] + rest[0]];
      } else {
        var ws := Split(s);
        assert ws[1..] == rest[1..];
        assert Join(rest) == rest[0] + " " + Join(rest[1..]);
        assert s == [s[0]] + s[1..];
      }
    }
  }

  /** A piece without spaces splits to itself. */
  lemma {:induction false} SplitWord(w: string)
    requires ' ' !in w
    ensures Split(w) == [w]
  {
    if w != [] {
      SplitWord(w[1..]);
      assert [w[0]] + w[1..] == w;
    }
  }

  /** A piece without spaces followed by a space starts a new piece. */
  lemma {:induction false} SplitBeforeSpace(w: string, t: string)
    requires ' ' !in w
    ensures Split(w + " " + t) == [w] + Split(t)
  {
    if w == [] {
      assert w + " " + t == [' '] + t;
      assert (w + " " + t)[1..] == t;
    } else {
      assert (w + " " + t)[1..] == w[1..] + " " + t;
      SplitBeforeSpace(w[1..], t);
      assert [w[0]] + w[1..] == w;
    }
  }

  lemma {:induction false} SplitJoin(ws: seq<string>)
    requires |ws| >= 1
    requires forall i :: 0 <= i < |ws| ==> ' ' !in ws[i]
    ensures Split(Join(ws)) == ws
  {
    if |ws| == 1 {
      SplitWord(ws[0]);
    } else {
      SplitJoin(ws[1..]);
      SplitBeforeSpace(ws[0], Join(ws[1..]));
      assert [ws[0]] + ws[1..] == ws;
    }
  }

  lemma WordHasNoSpace(w: string)
    requires IsWord(w)
    ensures ' ' !in w
  {
  }

  /** `ValidateOwner` accepts exactly the names made of one to three words
      joined by single spaces. */
  lemma ValidateOwnerIff(s: string)
    ensures ValidateOwner(s) <==> IsOwnerName(s)
  {
    if ValidateOwner(s) {
      JoinSplit(s);
      assert 1 <= |Split(s)| <= 3 && s == Join(Split(s));
    }
    if IsOwnerName(s) {
      var ws: seq<string> :| 1 <= |ws| <= 3 && (forall i :: 0 <= i < |ws| ==> IsWord(ws[i])) && s == Join(ws);
      JoinedWordsAccepted(ws);
    }
  }

  /** Every name of one to three words joined by single spaces is accepted. */
  lemma JoinedWordsAccepted(ws: seq<string>)
    requires 1 <= |ws| <= 3
    requires forall i :: 0 <= i < |ws| ==> IsWord(ws[i])
    ensures ValidateOwner(Join(ws))
  {
    forall i | 0 <= i < |ws| ensures ' ' !in ws[i] {
      WordHasNoSpace(ws[i]);
    }
    SplitJoin(ws);
  }

  /** Names of four or more words are refused, however well-formed each word is. */
  lemma TooManyWordsRejected(ws: seq<string>)
    requires |ws| >= 4
    requires forall i :: 0 <= i < |ws| ==> IsWord(ws[i])
    ensures !ValidateOwner(Join(ws))
  {
    forall i | 0 <= i < |ws| ensures ' ' !in ws[i] {
      WordHasNoSpace(ws[i]);
    }
    SplitJoin(ws);
  }

  /** Character-level shape of words joined by single spaces. */
  ghost predicate WellSpaced(s: string) {
    && s != []
    && IsLetter(s[0])
    && IsLetter(s[|s| - 1])
    && (forall i :: 0 <= i < |s| ==> IsLetter(s[i]) || s[i] == ' ')
    && (forall i :: 0 <= i < |s| - 1 && s[i] == ' ' ==> s[i + 1] != ' ')
  }

  lemma {:induction false} JoinWellSpaced(ws: seq<string>)
    requires |ws| >= 1
    requires forall i :: 0 <= i < |ws| ==> IsWord(ws[i])
    ensures WellSpaced(Join(ws))
  {
    if |ws| > 1 {
      JoinWellSpaced(ws[1..]);
      var w, t := ws[0], Join(ws[1..]);
      var s := w + " " + t;
      assert IsWord(w);
      forall i | 0 <= i < |s| ensures IsLetter(s[i]) || s[i] == ' ' {
        if i > |w| {
          assert s[i] == t[i - |w| - 1];
        }
      }
      forall i | 0 <= i < |s| - 1 && s[i] == ' ' ensures s[i + 1] != ' ' {
        if i == |w| {
          assert s[i + 1] == t[0];
        } else {
          assert s[i] == t[i - |w| - 1] && s[i + 1] == t[i - |w|];
        }
      }
    }
  }

  /** An accepted name is non-empty, starts and ends with a letter, holds
      only letters and spaces, and never two spaces in a row: so the empty
      string, a leading space, a double space, a digit or a hyphen are all
      refused. */
  lemma AcceptedOwnerShape(s: string)
    requires ValidateOwner(s)
    ensures WellSpaced(s)
  {
    JoinSplit(s);
    JoinWellSpaced(Split(s));
  }

  // The cases of ValidateOwner_ShouldReturnTrue_ForValidOwner.

  lemma AcceptsTwoWordName()
    ensures ValidateOwner("John Doe")
  {
    JoinedWordsAccepted(["John", "Doe"]);
    assert "John Doe" == Join(["John", "Doe"]);
  }

  lemma AcceptsOneLetterName()
    ensures ValidateOwner("J")
  {
    JoinedWordsAccepted(["J"]);
  }

  lemma AcceptsThreeWordName()
    ensures ValidateOwner("John Fitzgerald Doe")
  {
    JoinedWordsAccepted(["John", "Fitzgerald", "Doe"]);
    assert "John Fitzgerald Doe" == Join(["John", "Fitzgerald", "Doe"]);
  }

  lemma AcceptsOneWordName()
    ensures ValidateOwner("Namewithoutspaces")
  {
    JoinedWordsAccepted(["Namewithoutspaces"]);
  }

  // The cases of ValidateOwner_ShouldReturnFalse_ForInvalidOwner.

  lemma RejectsDoubleSpace()
    ensures !ValidateOwner("John  Doe")
  {
    NotWellSpacedRejected("John  Doe", 4);
  }

  lemma RejectsDigit()
    ensures !ValidateOwner("John Doe4")
  {
    NotWellSpacedRejected("John Doe4", 8);
  }

  lemma RejectsHyphen()
    ensures !ValidateOwner("John-Doe")
  {
    NotWellSpacedRejected("John-Doe", 4);
  }

  lemma RejectsFourWords()
    ensures !ValidateOwner("John Fitzgerald Kennedy Doe")
  {
    assert "John Fitzgerald Kennedy Doe" == Join(["John", "Fitzgerald", "Kennedy", "Doe"]);
    TooManyWordsRejected(["John", "Fitzgerald", "Kennedy", "Doe"]);
  }

  lemma RejectsEmptyName()
    ensures !ValidateOwner("")
  {
    assert !IsWord(Split("")[0]);
  }

  lemma RejectsLeadingSpace()
    ensures !ValidateOwner(" John Doe")
  {
    NotWellSpacedRejected(" John Doe", 0);
  }

  /** A position that breaks the shape of a well-spaced name makes the whole
      name invalid. */
  lemma NotWellSpacedRejected(s: string, k: nat)
    requires k < |s|
    requires !(IsLetter(s[k]) || (s[k] == ' ' && 0 < k < |s| - 1 && s[k + 1] != ' '))
    ensures !ValidateOwner(s)
  {
    if ValidateOwner(s) {
      AcceptedOwnerShape(s);
    }
  }
}
