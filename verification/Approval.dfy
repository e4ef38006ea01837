/** Reading a human's reply to an approval question (app/policy.py). */
module Approval {
  import opened Base
  import opened Text

  datatype ApprovalVerdict = Approve | Deny

  predicate IsLetter(c: char) {
    'a' <= c <= 'z'
  }

  function LowerChar(c: char): char {
    if 'A' <= c <= 'Z' then c - 'A' + 'a' else c
  }

  function Lower(s: string): string {
    if s == [] then [] else [LowerChar(s[0])] + Lower(s[1..])
  }

  /** What comes before the first character that is not a small letter. */
  function FirstToken(s: string): string {
    if s != [] && IsLetter(s[0]) then [s[0]] + FirstToken(s[1..]) else []
  }

  function Classify(token: string): Option<ApprovalVerdict> {
    if token in {"approve", "approved", "yes", "allow"} then Some(Approve)
    else if token in {"deny", "denied", "no", "reject", "refuse"} then Some(Deny)
    else None
  }

  function ParseApproval(text: string): Option<ApprovalVerdict> {
    Classify(FirstToken(Lower(Strip(text))))
  }

  predicate Letters(s: string) {
    forall i :: 0 <= i < |s| ==> IsLetter(LowerChar(s[i]))
  }

  lemma {:induction false} StripRightKeepsWord(word: string, rest: string) returns (rest': string)
    requires word != [] && Letters(word) && (rest != [] ==> !IsLetter(LowerChar(rest[0])))
    ensures StripRight(word + rest) == word + rest'
    ensures rest' != [] ==> !IsLetter(LowerChar(rest'[0]))
  {
    var s := word + rest;
    if rest == [] {
      assert IsLetter(LowerChar(s[|s| - 1]));
      rest' := [];
    } else if IsSpace(s[|s| - 1]) {
      assert s[..|s| - 1] == word + rest[..|rest| - 1];
      rest' := StripRightKeepsWord(word, rest[..|rest| - 1]);
    } else {
      rest' := rest;
    }
  }

  lemma {:induction false} TokenIsWord(word: string, rest: string)
    requires Letters(word) && (rest != [] ==> !IsLetter(LowerChar(rest[0])))
    ensures FirstToken(Lower(word + rest)) == Lower(word)
  {
    if word == [] {
      assert word + rest == rest;
    } else {
      assert (word + rest)[1..] == word[1..] + rest;
      assert forall i :: 0 <= i < |word[1..]| ==> word[1..][i] == word[i + 1];
      assert (word + rest)[0] == word[0] && IsLetter(LowerChar(word[0]));
      TokenIsWord(word[1..], rest);
      assert Lower(word + rest)[1..] == Lower(word[1..] + rest);
    }
  }

  /** The first word decides, whatever its case, the spaces before it and the text after it. */
  lemma FirstWordDecides(lead: string, word: string, rest: string)
    requires Spaces(lead) && word != [] && Letters(word) && (rest != [] ==> !IsLetter(LowerChar(rest[0])))
    ensures ParseApproval(lead + word + rest) == Classify(Lower(word))
  {
    assert lead + word + rest == lead + (word + rest);
    assert (word + rest)[0] == word[0];
    StripLeftDropsSpaces(lead, word + rest);
    var rest' := StripRightKeepsWord(word, rest);
    TokenIsWord(word, rest');
  }

  /** A reply that does not start with a word decides nothing. */
  lemma NoWordNoVerdict(lead: string, rest: string)
    requires Spaces(lead) && (rest != [] ==> !IsSpace(rest[0]) && !IsLetter(LowerChar(rest[0])))
    ensures ParseApproval(lead + rest) == None
  {
    StripLeftDropsSpaces(lead, rest);
    if rest != [] {
      StripRightKeepsFirst(rest);
    }
  }

  // ------------------------------------------------------------ what a reply says

  /** A space, tab, line break or other ASCII separator. */
  predicate Blank(c: char) {
    c == ' ' || '\t' <= c <= '\r' || '\U{1C}' <= c <= '\U{1F}'
  }

  predicate AnyLetter(c: char) {
    'a' <= c <= 'z' || 'A' <= c <= 'Z'
  }

  /** `body` is the word `word`, in capitals or not. */
  predicate IsWord(body: string, word: string) {
    && |body| == |word|
    && forall i :: 0 <= i < |body| ==>
         body[i] == word[i] || ('A' <= body[i] <= 'Z' && body[i] as int + 32 == word[i] as int)
  }

  /** After blanks, if any, the reply begins with `word` and the word ends there. */
  ghost predicate Says(text: string, word: string) {
    exists lead, body, rest :: BeginsWith(text, lead, body, rest, word)
  }

  ghost predicate BeginsWith(text: string, lead: string, body: string, rest: string, word: string) {
    && text == lead + body + rest && IsWord(body, word)
    && (forall i :: 0 <= i < |lead| ==> Blank(lead[i]))
    && (rest != [] ==> !AnyLetter(rest[0]))
  }

  ghost predicate SaysYes(text: string) {
    Says(text, "approve") || Says(text, "approved") || Says(text, "yes") || Says(text, "allow")
  }

  ghost predicate SaysNo(text: string) {
    Says(text, "deny") || Says(text, "denied") || Says(text, "no") || Says(text, "reject") || Says(text, "refuse")
  }

  /** A word of small letters. */
  predicate Plainly(word: string) {
    word != [] && forall i :: 0 <= i < |word| ==> IsLetter(word[i])
  }

  lemma {:induction false} LoweredIsWord(body: string, word: string)
    requires Plainly(word) && |body| == |word|
    ensures IsWord(body, word) <==> Lower(body) == word
    ensures IsWord(body, word) ==> Letters(body)
  {
    forall i | 0 <= i < |body|
      ensures |Lower(body)| == |body| && Lower(body)[i] == LowerChar(body[i])
    {
      LowerAt(body, i);
    }
    if IsWord(body, word) {
      assert forall i :: 0 <= i < |body| ==> LowerChar(body[i]) == word[i];
    } else {
      var i :| 0 <= i < |body| && body[i] != word[i]
               && !('A' <= body[i] <= 'Z' && body[i] as int + 32 == word[i] as int);
      assert Lower(body)[i] != word[i];
    }
  }

  lemma {:induction false} LowerAt(s: string, i: nat)
    requires i < |s|
    ensures |Lower(s)| == |s| && Lower(s)[i] == LowerChar(s[i])
  {
    if |s| > 1 {
      LowerAt(s[1..], if i > 0 then i - 1 else 0);
    }
  }

  lemma {:induction false} TokenSplits(s: string) returns (n: nat)
    ensures n <= |s| && FirstToken(Lower(s)) == Lower(s[..n]) && (n < |s| ==> !IsLetter(LowerChar(s[n])))
  {
    if s == [] || !IsLetter(LowerChar(s[0])) {
      n := 0;
    } else {
      var m := TokenSplits(s[1..]);
      n := m + 1;
      assert Lower(s)[1..] == Lower(s[1..]);
      assert s[..n][1..] == s[1..][..m] && s[..n][0] == s[0];
    }
  }

  lemma {:induction false} LowerLength(s: string)
    ensures |Lower(s)| == |s|
  {
    if s != [] { LowerLength(s[1..]); }
  }

  /** The token the code looks at is the first word of the reply. */
  lemma TokenIsSaid(text: string, word: string)
    requires Plainly(word)
    ensures FirstToken(Lower(Strip(text))) == word <==> Says(text, word)
  {
    if FirstToken(Lower(Strip(text))) == word {
      TokenComesFirst(text, word);
    }
    if Says(text, word) {
      var lead, body, rest :| BeginsWith(text, lead, body, rest, word);
      SaidIsToken(text, lead, body, rest, word);
    }
  }

  lemma TokenComesFirst(text: string, word: string)
    requires Plainly(word) && FirstToken(Lower(Strip(text))) == word
    ensures Says(text, word)
  {
    var s := Strip(text);
    var lead, trail := StripIsMiddle(text);
    var n := TokenSplits(s);
    LowerLength(s[..n]);
    LoweredIsWord(s[..n], word);
    var rest := s[n..] + trail;
    assert text == lead + s[..n] + rest by {
      assert s == s[..n] + s[n..];
    }
    assert forall i :: 0 <= i < |lead| ==> IsSpace(lead[i]);
    assert rest != [] ==> !AnyLetter(rest[0]);
    assert BeginsWith(text, lead, s[..n], rest, word);
  }

  lemma SaidIsToken(text: string, lead: string, body: string, rest: string, word: string)
    requires Plainly(word) && BeginsWith(text, lead, body, rest, word)
    ensures FirstToken(Lower(Strip(text))) == word
  {
    LoweredIsWord(body, word);
    assert lead + body + rest == lead + (body + rest);
    assert (body + rest)[0] == body[0];
    assert forall i :: 0 <= i < |lead| ==> Blank(lead[i]) && IsSpace(lead[i]);
    StripLeftDropsSpaces(lead, body + rest);
    var rest' := StripRightKeepsWord(body, rest);
    TokenIsWord(body, rest');
  }

  /** A reply approves exactly when its first word is one of four, denies exactly when it is one of five,
      and otherwise decides nothing. */
  lemma RepliesDecide(text: string)
    ensures ParseApproval(text) == Some(Approve) <==> SaysYes(text)
    ensures ParseApproval(text) == Some(Deny) <==> SaysNo(text)
    ensures ParseApproval(text) == None <==> !SaysYes(text) && !SaysNo(text)
    ensures !(SaysYes(text) && SaysNo(text))
  {
    hide Says, FirstToken, Lower, Strip;
    TokenIsSaid(text, "approve");
    TokenIsSaid(text, "approved");
    TokenIsSaid(text, "yes");
    TokenIsSaid(text, "allow");
    TokenIsSaid(text, "deny");
    TokenIsSaid(text, "denied");
    TokenIsSaid(text, "no");
    TokenIsSaid(text, "reject");
    TokenIsSaid(text, "refuse");
  }
}
