/** Access-control rules as text: how a rule is printed, how the listing of a directory is parsed, and why
    the second undoes the first. */
module AclText {

  datatype AclEntry = AclEntry(uname: string, perm: string)

  datatype AclRule = AclRule(baseUser: string, baseGroup: string, users: seq<AclEntry>, groups: seq<AclEntry>,
                             mask: string, other: string)

  const BLANK: AclRule := AclRule("", "", [], [], "", "")

  // ---- lines and tokens ----

  function IndexOf(s: string, c: char): (i: nat)
    ensures i <= |s| && c !in s[..i] && (i < |s| ==> s[i] == c)
  {
    if s == "" then 0
    else if s[0] == c then 0
    else
      var i := IndexOf(s[1..], c);
      assert s[..i + 1] == [s[0]] + s[1..][..i];
      i + 1
  }

  /** Repeated getline: pieces between delimiters, but no empty piece behind a final one. */
  function Split(s: string, delim: char): seq<string> {
    if s == "" then []
    else
      var i := IndexOf(s, delim);
      if i == |s| then [s] else [s[..i]] + Split(s[i + 1..], delim)
  }

  function Join(lines: seq<string>, delim: char): string {
    if lines == [] then ""
    else if |lines| == 1 then lines[0]
    else lines[0] + [delim] + Join(lines[1..], delim)
  }

  function Replaced(s: string, c: char, d: char): string {
    seq(|s|, i requires 0 <= i < |s| => if s[i] == c then d else s[i])
  }

  lemma {:induction false} IndexIs(s: string, c: char, k: nat)
    requires k <= |s| && c !in s[..k] && (k < |s| ==> s[k] == c)
    ensures IndexOf(s, c) == k
  {
  }

  lemma SplitFirst(a: string, b: string, delim: char)
    requires delim !in a
    ensures Split(a + [delim] + b, delim) == [a] + Split(b, delim)
  {
    var s := a + [delim] + b;
    assert s[..|a|] == a && s[|a| + 1..] == b;
    IndexIs(s, delim, |a|);
  }

  lemma SplitOne(a: string, delim: char)
    requires delim !in a && a != ""
    ensures Split(a, delim) == [a]
  {
  }

  /** Lines fit to be joined: neither empty nor containing the delimiter. */
  predicate Joinable(lines: seq<string>, delim: char) {
    forall i :: 0 <= i < |lines| ==> lines[i] != "" && delim !in lines[i]
  }

  lemma {:induction false} SplitJoin(lines: seq<string>, delim: char)
    requires Joinable(lines, delim)
    ensures Split(Join(lines, delim), delim) == lines
  {
    if lines == [] {
    } else if |lines| == 1 {
      SplitOne(lines[0], delim);
    } else {
      assert Joinable(lines[1..], delim);
      SplitJoin(lines[1..], delim);
      SplitFirst(lines[0], Join(lines[1..], delim), delim);
    }
  }

  lemma {:induction false} JoinSnoc(lines: seq<string>, l: string, delim: char)
    requires lines != []
    ensures Join(lines + [l], delim) == Join(lines, delim) + [delim] + l
  {
    if |lines| == 1 {
      assert (lines + [l])[1..] == [l];
    } else {
      assert (lines + [l])[1..] == lines[1..] + [l];
      JoinSnoc(lines[1..], l, delim);
    }
  }

  lemma ReplacedConcat(s: string, t: string, c: char, d: char)
    ensures Replaced(s + t, c, d) == Replaced(s, c, d) + Replaced(t, c, d)
  {
  }

  lemma {:induction false} ReplacedJoin(lines: seq<string>, c: char, d: char)
    requires forall i :: 0 <= i < |lines| ==> c !in lines[i]
    ensures Replaced(Join(lines, c), c, d) == Join(lines, d)
  {
    if lines == [] {
    } else {
      var l := lines[0];
      assert Replaced(l, c, d) == l by {
        forall i | 0 <= i < |l| ensures l[i] != c {
          assert l[i] in l;
        }
      }
      if |lines| > 1 {
        ReplacedJoin(lines[1..], c, d);
        ReplacedConcat(l + [c], Join(lines[1..], c), c, d);
        ReplacedConcat(l, [c], c, d);
      }
    }
  }

  // ---- printing ----

  function EntryLine(kind: string, e: AclEntry): string {
    kind + ":" + e.uname + ":" + e.perm
  }

  function EntryLines(kind: string, entries: seq<AclEntry>): seq<string> {
    seq(|entries|, i requires 0 <= i < |entries| => EntryLine(kind, entries[i]))
  }

  function BaseLine(kind: string, perm: string): seq<string> {
    if perm == "" then [] else [kind + "::" + perm]
  }

  /** The lines of a rule; without a base user permission there are none. */
  function Lines(r: AclRule): seq<string> {
    if r.baseUser == "" then []
    else BaseLine("user", r.baseUser) + EntryLines("user", r.users)
         + BaseLine("group", r.baseGroup) + EntryLines("group", r.groups)
         + BaseLine("mask", r.mask) + BaseLine("other", r.other)
  }

  function Text(r: AclRule): string {
    Join(Lines(r), ',')
  }

  // ---- parsing ----

  function ParseLine(r: AclRule, line: string): AclRule {
    var tokens := Split(line, ':');
    if |tokens| != 3 then r
    else if tokens[0] == "user" then
      if tokens[1] == "" then r.(baseUser := tokens[2]) else r.(users := r.users + [AclEntry(tokens[1], tokens[2])])
    else if tokens[0] == "group" then
      if tokens[1] == "" then r.(baseGroup := tokens[2]) else r.(groups := r.groups + [AclEntry(tokens[1], tokens[2])])
    else if tokens[0] == "mask" then
      if tokens[1] == "" then r.(mask := tokens[2]) else r
    else if tokens[0] == "other" then
      if tokens[1] == "" then r.(other := tokens[2]) else r
    else r
  }

  function ParseLines(r: AclRule, lines: seq<string>): AclRule {
    if lines == [] then r else ParseLine(ParseLines(r, lines[..|lines| - 1]), lines[|lines| - 1])
  }

  function Parse(text: string): AclRule {
    ParseLines(BLANK, Split(text, '\n'))
  }

  lemma {:induction false} ParseLinesConcat(r: AclRule, a: seq<string>, b: seq<string>)
    ensures ParseLines(r, a + b) == ParseLines(ParseLines(r, a), b)
    decreases |b|
  {
    if b == [] {
      assert a + b == a;
    } else {
      var n := |b| - 1;
      assert (a + b)[..|a| + n] == a + b[..n];
      ParseLinesConcat(r, a, b[..n]);
    }
  }

  // ---- the round trip ----

  predicate Plain(s: string) {
    ',' !in s && ':' !in s && '\n' !in s
  }

  predicate PlainEntries(es: seq<AclEntry>) {
    forall i :: 0 <= i < |es| ==> Plain(es[i].uname) && Plain(es[i].perm)
  }

  /** No separator in any name or permission. */
  predicate SeparatorFree(r: AclRule) {
    && Plain(r.baseUser) && Plain(r.baseGroup) && Plain(r.mask) && Plain(r.other)
    && PlainEntries(r.users) && PlainEntries(r.groups)
  }

  predicate Complete(e: AclEntry) {
    e.uname != "" && e.perm != ""
  }

  predicate AllComplete(es: seq<AclEntry>) {
    forall i :: 0 <= i < |es| ==> Complete(es[i])
  }

  function CompleteOnes(es: seq<AclEntry>): seq<AclEntry> {
    if es == [] then []
    else
      var n := |es| - 1;
      CompleteOnes(es[..n]) + if Complete(es[n]) then [es[n]] else []
  }

  lemma {:induction false} CompleteOnesAll(es: seq<AclEntry>)
    ensures |CompleteOnes(es)| <= |es|
    ensures CompleteOnes(es) == es <==> AllComplete(es)
  {
    if es != [] {
      var n := |es| - 1;
      CompleteOnesAll(es[..n]);
      assert es == es[..n] + [es[n]];
      if Complete(es[n]) && CompleteOnes(es) == es {
        assert CompleteOnes(es[..n]) == es[..n] by {
          assert CompleteOnes(es)[..|es| - 1] == CompleteOnes(es[..n]);
        }
        assert forall i :: 0 <= i < n ==> es[i] == es[..n][i];
      }
    }
  }

  /** Three plain tokens, as they come back: the last one only if it is not empty. */
  lemma SplitThree(a: string, b: string, c: string)
    requires ':' !in a && ':' !in b && ':' !in c
    ensures Split(a + ":" + b + ":" + c, ':') == if c == "" then [a, b] else [a, b, c]
  {
    assert a + ":" + b + ":" + c == a + [':'] + (b + [':'] + c);
    SplitFirst(a, b + [':'] + c, ':');
    SplitFirst(b, c, ':');
    if c != "" {
      SplitOne(c, ':');
    }
  }

  lemma ParseBaseLine(r: AclRule, kind: string, perm: string)
    requires Plain(perm) && perm != ""
    requires kind == "user" || kind == "group" || kind == "mask" || kind == "other"
    ensures ParseLine(r, kind + "::" + perm) ==
            if kind == "user" then r.(baseUser := perm)
            else if kind == "group" then r.(baseGroup := perm)
            else if kind == "mask" then r.(mask := perm)
            else r.(other := perm)
  {
    assert kind + "::" + perm == kind + ":" + "" + ":" + perm;
    SplitThree(kind, "", perm);
  }

  lemma ParseEntryLine(r: AclRule, kind: string, e: AclEntry)
    requires Plain(e.uname) && Plain(e.perm) && (kind == "user" || kind == "group")
    ensures var u := ParseLine(r, EntryLine(kind, e));
            if Complete(e) then
              u == if kind == "user" then r.(users := r.users + [e]) else r.(groups := r.groups + [e])
            else u.users == r.users && u.groups == r.groups
  {
    SplitThree(kind, e.uname, e.perm);
  }

  lemma LastLine(r: AclRule, kind: string, es: seq<AclEntry>)
    requires es != []
    ensures var n := |es| - 1;
            ParseLines(r, EntryLines(kind, es)) ==
              ParseLine(ParseLines(r, EntryLines(kind, es[..n])), EntryLine(kind, es[n]))
  {
    hide ParseLine, EntryLine;
    assert EntryLines(kind, es)[..|es| - 1] == EntryLines(kind, es[..|es| - 1]);
  }

  lemma AllCompleteLast(es: seq<AclEntry>)
    requires es != []
    ensures AllComplete(es) <==> AllComplete(es[..|es| - 1]) && Complete(es[|es| - 1])
  {
  }

  lemma InitAndLast<T>(s: seq<T>)
    requires s != []
    ensures s == s[..|s| - 1] + [s[|s| - 1]]
  {
  }

  lemma CompleteOnesLast(es: seq<AclEntry>)
    requires es != []
    ensures CompleteOnes(es) ==
            CompleteOnes(es[..|es| - 1]) + (if Complete(es[|es| - 1]) then [es[|es| - 1]] else [])
  {
  }

  lemma {:induction false} ParseUserLines(r: AclRule, es: seq<AclEntry>)
    requires PlainEntries(es) && r.users == []
    ensures var u := ParseLines(r, EntryLines("user", es));
            && u.users == CompleteOnes(es) && u.groups == r.groups
            && (AllComplete(es) ==> u == r.(users := es))
  {
    if es == [] {
    } else {
      hide ParseLine, ParseLines, EntryLine, CompleteOnes, AllComplete;
      var n := |es| - 1;
      LastLine(r, "user", es);
      AllCompleteLast(es);
      CompleteOnesLast(es);
      ParseUserLines(r, es[..n]);
      ParseEntryLine(ParseLines(r, EntryLines("user", es[..n])), "user", es[n]);
      InitAndLast(es);
    }
  }

  lemma {:induction false} ParseGroupLines(r: AclRule, es: seq<AclEntry>)
    requires PlainEntries(es) && r.groups == []
    ensures var u := ParseLines(r, EntryLines("group", es));
            && u.groups == CompleteOnes(es) && u.users == r.users
            && (AllComplete(es) ==> u == r.(groups := es))
  {
    if es == [] {
    } else {
      hide ParseLine, ParseLines, EntryLine, CompleteOnes, AllComplete;
      var n := |es| - 1;
      LastLine(r, "group", es);
      AllCompleteLast(es);
      CompleteOnesLast(es);
      ParseGroupLines(r, es[..n]);
      ParseEntryLine(ParseLines(r, EntryLines("group", es[..n])), "group", es[n]);
      InitAndLast(es);
    }
  }

  lemma ParseBase(r: AclRule, kind: string, perm: string)
    requires Plain(perm)
    requires kind == "user" || kind == "group" || kind == "mask" || kind == "other"
    ensures ParseLines(r, BaseLine(kind, perm)) == if perm == "" then r else ParseLine(r, kind + "::" + perm)
  {
  }

  lemma ParseKind(r: AclRule, kind: string, perm: string)
    requires Plain(perm)
    requires kind == "user" || kind == "group" || kind == "mask" || kind == "other"
    ensures ParseLines(r, BaseLine(kind, perm)) ==
            if perm == "" then r
            else if kind == "user" then r.(baseUser := perm)
            else if kind == "group" then r.(baseGroup := perm)
            else if kind == "mask" then r.(mask := perm)
            else r.(other := perm)
  {
    ParseBase(r, kind, perm);
    if perm != "" {
      ParseBaseLine(r, kind, perm);
    }
  }

  /** The six parts of a rule are parsed in turn. */
  lemma LinesInTurn(r: AclRule)
    requires r.baseUser != ""
    ensures var r2 := ParseLines(ParseLines(BLANK, BaseLine("user", r.baseUser)), EntryLines("user", r.users));
            var r4 := ParseLines(ParseLines(r2, BaseLine("group", r.baseGroup)), EntryLines("group", r.groups));
            ParseLines(BLANK, Lines(r)) ==
              ParseLines(ParseLines(r4, BaseLine("mask", r.mask)), BaseLine("other", r.other))
  {
    hide ParseLines, BaseLine, EntryLines;
    var a, b := BaseLine("user", r.baseUser), EntryLines("user", r.users);
    var c, d := BaseLine("group", r.baseGroup), EntryLines("group", r.groups);
    var e, f := BaseLine("mask", r.mask), BaseLine("other", r.other);
    ParseLinesConcat(BLANK, a, b);
    ParseLinesConcat(BLANK, a + b, c);
    ParseLinesConcat(BLANK, a + b + c, d);
    ParseLinesConcat(BLANK, a + b + c + d, e);
    ParseLinesConcat(BLANK, a + b + c + d + e, f);
  }

  /** What parsing the lines of a rule recovers: the complete entries, in order, and with complete
      entries only, the whole rule. */
  lemma ParseOfLines(r: AclRule)
    requires SeparatorFree(r) && r.baseUser != ""
    ensures var u := ParseLines(BLANK, Lines(r));
            && u.users == CompleteOnes(r.users) && u.groups == CompleteOnes(r.groups)
            && (AllComplete(r.users) && AllComplete(r.groups) ==> u == r)
  {
    hide ParseLines, CompleteOnes, Lines, BaseLine, EntryLines;
    LinesInTurn(r);
    ParseKind(BLANK, "user", r.baseUser);
    var r1 := BLANK.(baseUser := r.baseUser);
    ParseUserLines(r1, r.users);
    var r2 := ParseLines(r1, EntryLines("user", r.users));
    ParseKind(r2, "group", r.baseGroup);
    var r3 := ParseLines(r2, BaseLine("group", r.baseGroup));
    ParseGroupLines(r3, r.groups);
    var r4 := ParseLines(r3, EntryLines("group", r.groups));
    ParseKind(r4, "mask", r.mask);
    ParseKind(ParseLines(r4, BaseLine("mask", r.mask)), "other", r.other);
  }

  predicate Free(l: string) {
    l != "" && ',' !in l && '\n' !in l
  }

  predicate AllFree(lines: seq<string>) {
    forall i :: 0 <= i < |lines| ==> Free(lines[i])
  }

  lemma LinesFree(r: AclRule)
    requires SeparatorFree(r)
    ensures AllFree(Lines(r))
  {
  }

  /** The listing of a directory holds on separate lines what the printed rule separates by commas. */
  function Listing(r: AclRule): string {
    Replaced(Text(r), ',', '\n')
  }

  /** A rule without separators in its names and permissions comes back from its own text exactly if its
      entries are complete, provided it has a base user permission; without one nothing is printed, and
      only the blank rule comes back. */
  lemma RoundTrip(r: AclRule)
    requires SeparatorFree(r)
    ensures Parse(Listing(r)) == r <==>
            if r.baseUser == "" then r == BLANK else AllComplete(r.users) && AllComplete(r.groups)
  {
    LinesFree(r);
    assert forall i :: 0 <= i < |Lines(r)| ==> Free(Lines(r)[i]);
    ReplacedJoin(Lines(r), ',', '\n');
    SplitJoin(Lines(r), '\n');
    if r.baseUser != "" {
      ParseOfLines(r);
      CompleteOnesAll(r.users);
      CompleteOnesAll(r.groups);
    }
  }
}
