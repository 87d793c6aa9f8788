/** The policy object: it reads the access-control rules of two directories, grants one user access in
    both, and prints the result. */
module CameraDacPolicy {
  import opened Wrappers
  import opened AclText

  /** What a client is granted. */
  const GRANT := "r-x"

  /** The position of the first entry with this name, the length when there is none. */
  function IndexOfName(es: seq<AclEntry>, name: string): (i: nat)
    ensures i <= |es|
    ensures i < |es| ==> es[i].uname == name
    ensures forall j :: 0 <= j < i ==> es[j].uname != name
  {
    if es == [] then 0
    else if es[0].uname == name then 0
    else
      var i := IndexOfName(es[1..], name);
      assert forall j :: 0 < j < i + 1 ==> es[j] == es[1..][j - 1];
      i + 1
  }

  /** How prepare edits a rule for a user. */
  function Granted(r: AclRule, uname: string): AclRule {
    var i := IndexOfName(r.users, uname);
    var r1 := if i == |r.users| then
                r.(users := r.users + [AclEntry(uname, GRANT)], mask := if r.mask == "" then GRANT else r.mask)
              else r.(users := r.users[i := AclEntry(uname, GRANT)]);
    var j := IndexOfName(r.groups, uname);
    if j == |r.groups| then r1
    else r1.(groups := r.groups[..j] + r.groups[j + 1..], mask := if r1.mask == "" then GRANT else r1.mask)
  }

  // ---- what granting means ----

  function Count(es: seq<AclEntry>, name: string): nat {
    if es == [] then 0 else (if es[0].uname == name then 1 else 0) + Count(es[1..], name)
  }

  /** Everyone else's entries, in order. */
  function Others(es: seq<AclEntry>, name: string): seq<AclEntry> {
    if es == [] then []
    else if es[0].uname == name then Others(es[1..], name)
    else [es[0]] + Others(es[1..], name)
  }

  lemma {:induction false} OfConcat(a: seq<AclEntry>, b: seq<AclEntry>, name: string)
    ensures Count(a + b, name) == Count(a, name) + Count(b, name)
    ensures Others(a + b, name) == Others(a, name) + Others(b, name)
  {
    if a == [] {
      assert a + b == b;
    } else {
      assert (a + b)[1..] == a[1..] + b;
      OfConcat(a[1..], b, name);
    }
  }

  lemma {:induction false} OfNobody(es: seq<AclEntry>, name: string)
    requires forall i :: 0 <= i < |es| ==> es[i].uname != name
    ensures Count(es, name) == 0 && Others(es, name) == es
  {
    if es != [] {
      OfNobody(es[1..], name);
    }
  }

  lemma OfOne(e: AclEntry)
    ensures Count([e], e.uname) == 1 && Others([e], e.uname) == []
  {
  }

  lemma Around(es: seq<AclEntry>, i: nat)
    requires i < |es|
    ensures es == es[..i] + [es[i]] + es[i + 1..]
    ensures forall e :: es[i := e] == es[..i] + [e] + es[i + 1..]
  {
  }

  /** The first entry of a name, and what is around it. */
  lemma OfFirst(es: seq<AclEntry>, name: string)
    ensures var i := IndexOfName(es, name);
            && (i == |es| <==> Count(es, name) == 0)
            && (i == |es| ==> Others(es, name) == es)
            && (i < |es| ==>
                  && Count(es, name) == 1 + Count(es[i + 1..], name)
                  && Others(es, name) == es[..i] + Others(es[i + 1..], name))
  {
  }

  lemma FirstIs(es: seq<AclEntry>, name: string, k: nat)
    requires k < |es| && es[k].uname == name && forall j :: 0 <= j < k ==> es[j].uname != name
    ensures IndexOfName(es, name) == k
  {
  }

  lemma OfSet(es: seq<AclEntry>, name: string, e: AclEntry)
    requires e.uname == name && IndexOfName(es, name) < |es|
    ensures var i := IndexOfName(es, name);
            && Count(es[i := e], name) == Count(es, name)
            && Others(es[i := e], name) == Others(es, name)
            && IndexOfName(es[i := e], name) == i
  {
    hide Count, Others, IndexOfName;
    var i := IndexOfName(es, name);
    var fs := es[i := e];
    OfFirst(es, name);
    OfFirst(fs, name);
    FirstIs(fs, name, i);
    assert fs[..i] == es[..i] && fs[i + 1..] == es[i + 1..];
  }

  lemma OfErase(es: seq<AclEntry>, name: string)
    requires IndexOfName(es, name) < |es|
    ensures var i := IndexOfName(es, name);
            && Count(es[..i] + es[i + 1..], name) == Count(es, name) - 1
            && Others(es[..i] + es[i + 1..], name) == Others(es, name)
  {
    var i := IndexOfName(es, name);
    OfFirst(es, name);
    OfNobody(es[..i], name);
    OfConcat(es[..i], es[i + 1..], name);
  }

  lemma OfAppend(es: seq<AclEntry>, e: AclEntry)
    requires IndexOfName(es, e.uname) == |es|
    ensures Count(es + [e], e.uname) == 1 && Others(es + [e], e.uname) == Others(es, e.uname)
    ensures IndexOfName(es + [e], e.uname) == |es|
  {
    OfFirst(es, e.uname);
    OfConcat(es, [e], e.uname);
    OfOne(e);
    assert es + [] == es;
    var i := IndexOfName(es + [e], e.uname);
    assert (es + [e])[|es|].uname == e.uname;
  }

  /** Granting gives the user's first user entry the granted permission, takes one of the user's group
      entries away, fills in an empty mask if it added or removed an entry, and changes nothing else. */
  lemma GrantIsExact(r: AclRule, uname: string)
    ensures var s := Granted(r, uname); var i := IndexOfName(s.users, uname);
            && i < |s.users| && s.users[i] == AclEntry(uname, GRANT)
            && Count(s.users, uname) == (if Count(r.users, uname) == 0 then 1 else Count(r.users, uname))
            && Count(s.groups, uname) == (if Count(r.groups, uname) == 0 then 0 else Count(r.groups, uname) - 1)
            && Others(s.users, uname) == Others(r.users, uname)
            && Others(s.groups, uname) == Others(r.groups, uname)
            && s.baseUser == r.baseUser && s.baseGroup == r.baseGroup && s.other == r.other
            && s.mask == (if r.mask == "" && (Count(r.users, uname) == 0 || Count(r.groups, uname) > 0) then GRANT
                          else r.mask)
  {
    hide Count, Others, IndexOfName;
    OfFirst(r.users, uname);
    OfFirst(r.groups, uname);
    if IndexOfName(r.users, uname) == |r.users| {
      OfAppend(r.users, AclEntry(uname, GRANT));
    } else {
      OfSet(r.users, uname, AclEntry(uname, GRANT));
    }
    if IndexOfName(r.groups, uname) < |r.groups| {
      OfErase(r.groups, uname);
    }
  }

  /** Granting twice is granting once, exactly if the user has at most one group entry to begin with. */
  lemma GrantIsIdempotent(r: AclRule, uname: string)
    ensures Granted(Granted(r, uname), uname) == Granted(r, uname) <==> Count(r.groups, uname) <= 1
  {
    var s := Granted(r, uname);
    GrantIsExact(r, uname);
    OfFirst(s.groups, uname);
    var i := IndexOfName(s.users, uname);
    assert s.users[i := AclEntry(uname, GRANT)] == s.users;
  }

  predicate WellFormed(r: AclRule) {
    SeparatorFree(r) && r.baseUser != "" && AllComplete(r.users) && AllComplete(r.groups)
  }

  lemma GrantKeepsWellFormed(r: AclRule, uname: string)
    requires WellFormed(r) && Plain(uname) && uname != ""
    ensures WellFormed(Granted(r, uname))
  {
  }

  /** Once a rule is granted and set, reading it back and granting again sets the same rule. */
  lemma SetAndReadBack(r: AclRule, uname: string)
    requires WellFormed(r) && Plain(uname) && uname != "" && Count(r.groups, uname) <= 1
    ensures Granted(Parse(Listing(Granted(r, uname))), uname) == Granted(r, uname)
  {
    GrantKeepsWellFormed(r, uname);
    RoundTrip(Granted(r, uname));
    GrantIsIdempotent(r, uname);
  }

  // ---- the policy object ----

  /** One line read from position `p`, up to a delimiter at `q` or to the end. */
  lemma GetLine(s: string, p: nat, q: nat, delim: char)
    requires p < |s| && p <= q <= |s| && delim !in s[p..q] && (q < |s| ==> s[q] == delim)
    ensures AclText.Split(s[p..], delim) == [s[p..q]] + AclText.Split(s[if q < |s| then q + 1 else q..], delim)
  {
    var t := s[p..];
    assert t[..q - p] == s[p..q];
    IndexIs(t, delim, q - p);
    if q < |s| {
      assert t[q - p + 1..] == s[q + 1..];
    } else {
      assert t == s[p..q] && s[q..] == "";
    }
  }

  lemma Appended(result: seq<string>, line: string, rest: seq<string>)
    ensures result + ([line] + rest) == result + [line] + rest
  {
  }

  /** Whole and empty: where reading starts and ends. */
  lemma SplitEnds(s: string, delim: char)
    ensures [] + AclText.Split(s[0..], delim) == AclText.Split(s, delim) && AclText.Split(s[|s|..], delim) == []
  {
  }

  class CameraDacPolicy {
    var aclText: string
    var dcimRule: AclRule
    var cameraRule: AclRule

    constructor ()
      ensures aclText == "" && dcimRule == BLANK && cameraRule == BLANK
    {
      aclText, dcimRule, cameraRule := "", BLANK, BLANK;
    }

    static method Split(str: string, delim: char) returns (result: seq<string>)
      ensures result == AclText.Split(str, delim)
    {
      hide AclText.Split;
      SplitEnds(str, delim);
      result := [];
      var p := 0;
      while p < |str|
        invariant p <= |str|
        invariant AclText.Split(str, delim) == result + AclText.Split(str[p..], delim)
      {
        var q := p;
        while q < |str| && str[q] != delim
          invariant p <= q <= |str| && delim !in str[p..q]
        {
          q := q + 1;
        }
        GetLine(str, p, q, delim);
        Appended(result, str[p..q], AclText.Split(str[if q < |str| then q + 1 else q..], delim));
        result := result + [str[p..q]];
        p := if q < |str| then q + 1 else q;
      }
    }

    /** The listing comes from the file system; it may fail to. */
    method GetCurrentRule(listing: Option<string>) returns (ok: bool, rule: AclRule)
      modifies this`aclText
      ensures ok <==> listing.Some?
      ensures rule == if listing.Some? then Parse(listing.value) else BLANK
    {
      rule := BLANK;
      aclText := "";
      if listing.None? {
        return false, rule;
      }
      aclText := listing.value;
      var lines := Split(aclText, '\n');
      var i := 0;
      while i < |lines|
        invariant i <= |lines| && rule == ParseLines(BLANK, lines[..i])
      {
        var tokens := Split(lines[i], ':');
        assert lines[..i + 1][..i] == lines[..i];
        if |tokens| == 3 {
          if tokens[0] == "user" {
            if tokens[1] == "" {
              rule := rule.(baseUser := tokens[2]);
            } else {
              rule := rule.(users := rule.users + [AclEntry(tokens[1], tokens[2])]);
            }
          } else if tokens[0] == "group" {
            if tokens[1] == "" {
              rule := rule.(baseGroup := tokens[2]);
            } else {
              rule := rule.(groups := rule.groups + [AclEntry(tokens[1], tokens[2])]);
            }
          } else if tokens[0] == "mask" {
            if tokens[1] == "" {
              rule := rule.(mask := tokens[2]);
            }
          } else if tokens[0] == "other" {
            if tokens[1] == "" {
              rule := rule.(other := tokens[2]);
            }
          }
        }
        i := i + 1;
      }
      assert lines[..i] == lines;
      return true, rule;
    }

    static method CreateTextRule(r: AclRule) returns (text: string)
      ensures text == Text(r)
    {
      text := "";
      if r.baseUser == "" {
        return;
      }
      ghost var lines := BaseLine("user", r.baseUser);
      assert "user" + "::" + r.baseUser == "user::" + r.baseUser;
      text := "user::" + r.baseUser;
      text := AppendEntries(text, lines, "user", r.users);
      lines := lines + EntryLines("user", r.users);
      text := AppendBase(text, lines, "group", r.baseGroup);
      lines := lines + BaseLine("group", r.baseGroup);
      text := AppendEntries(text, lines, "group", r.groups);
      lines := lines + EntryLines("group", r.groups);
      text := AppendBase(text, lines, "mask", r.mask);
      lines := lines + BaseLine("mask", r.mask);
      text := AppendBase(text, lines, "other", r.other);
    }

    static method AppendBase(text: string, ghost lines: seq<string>, kind: string, perm: string) returns (r: string)
      requires lines != [] && text == Join(lines, ',')
      ensures r == Join(lines + BaseLine(kind, perm), ',')
    {
      r := text;
      assert lines + [] == lines;
      if perm != "" {
        JoinSnoc(lines, kind + "::" + perm, ',');
        r := r + "," + kind + "::" + perm;
      }
    }

    static method AppendEntries(text: string, ghost lines: seq<string>, kind: string, entries: seq<AclEntry>)
      returns (r: string)
      requires lines != [] && text == Join(lines, ',')
      ensures r == Join(lines + EntryLines(kind, entries), ',')
    {
      r := text;
      var i := 0;
      assert lines + EntryLines(kind, entries[..0]) == lines;
      while i < |entries|
        invariant i <= |entries| && r == Join(lines + EntryLines(kind, entries[..i]), ',')
      {
        var line := kind + ":" + entries[i].uname + ":" + entries[i].perm;
        JoinSnoc(lines + EntryLines(kind, entries[..i]), line, ',');
        assert lines + EntryLines(kind, entries[..i + 1]) == lines + EntryLines(kind, entries[..i]) + [line];
        r := r + "," + line;
        i := i + 1;
      }
      assert entries[..i] == entries;
    }

    /** std::find_if by name */
    static method FindName(entries: seq<AclEntry>, name: string) returns (i: nat)
      ensures i == IndexOfName(entries, name)
    {
      i := 0;
      while i < |entries| && entries[i].uname != name
        invariant i <= |entries|
        invariant forall j :: 0 <= j < i ==> entries[j].uname != name
      {
        i := i + 1;
      }
    }

    /** The edit prepare makes to each of its two rules. */
    static method GrantIn(rule: AclRule, uname: string) returns (r: AclRule)
      ensures r == Granted(rule, uname)
    {
      r := rule;
      var i := FindName(r.users, uname);
      if i == |r.users| {
        r := r.(users := r.users + [AclEntry(uname, GRANT)]);
        if r.mask == "" {
          r := r.(mask := GRANT);
        }
      } else if r.users[i].perm != GRANT {
        r := r.(users := r.users[i := r.users[i].(perm := GRANT)]);
      }
      var j := FindName(r.groups, uname);
      if j < |r.groups| {
        r := r.(groups := r.groups[..j] + r.groups[j + 1..]);
        if r.mask == "" {
          r := r.(mask := GRANT);
        }
      }
    }

    /** The name comes from the password file; there may be none. */
    method Prepare(uname: Option<string>) returns (ok: bool)
      modifies this`dcimRule, this`cameraRule
      ensures ok <==> uname.Some?
      ensures dcimRule == if uname.Some? then Granted(old(dcimRule), uname.value) else old(dcimRule)
      ensures cameraRule == if uname.Some? then Granted(old(cameraRule), uname.value) else old(cameraRule)
    {
      if uname.None? {
        return false;
      }
      dcimRule := GrantIn(dcimRule, uname.value);
      cameraRule := GrantIn(cameraRule, uname.value);
      return true;
    }
  }
}
