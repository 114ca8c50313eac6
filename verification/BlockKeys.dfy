/** Which names make a brace a block: plain objects are returned exactly when one of the seven names is a direct key. */
module BlockKeys {
  import opened Base
  import opened Chars
  import opened BlockScanner
  import opened BlockTheorems

  const NAMES: seq<string> :=
    ["lane_output_version", "task_restatement", "verdict", "confidence", "claims", "residuals", "uncertainties"]

  /** A piece of an object's text: a key and its colon, a string that is no key, a string that a line end breaks off, a run
      of other characters, an array, or an object. */
  datatype Piece =
    | Key(name: string, gap: string) | Value(text: string, next: char) | Broken(text: string, end: char)
    | Run(body: string) | List(items: seq<Piece>) | Nested(members: seq<Piece>)

  /** Characters that leave the scanner where it is between strings. */
  predicate Quiet(c: char)
  {
    c != '"' && c != '{' && c != '}' && c != '[' && c != ']'
  }

  /** What stands in a string without ending it: characters, and escapes of any character. */
  predicate Inside(s: string)
  {
    s == "" || (s[0] == '\\' && |s| >= 2 && Inside(s[2..])) || (InnerChar(s[0]) && Inside(s[1..]))
  }

  predicate InnerChar(c: char)
  {
    c != '"' && c != '\\' && c != '\n' && c != '\r'
  }

  ghost predicate Proper(p: Piece)
  {
    match p
    case Key(name, gap) => Inside(name) && forall i :: 0 <= i < |gap| ==> White(gap[i])
    case Value(text, next) => Inside(text) && Quiet(next) && next != ':' && !White(next)
    case Broken(text, end) => Inside(text) && (end == '\n' || end == '\r')
    case Run(body) => forall i :: 0 <= i < |body| ==> Quiet(body[i])
    case List(items) => forall i :: 0 <= i < |items| ==> Proper(items[i])
    case Nested(members) => forall i :: 0 <= i < |members| ==> Proper(members[i])
  }

  function Rendered(p: Piece): string
    decreases p, 0
  {
    match p
    case Key(name, gap) => ("\"" + name + "\"") + (gap + ":")
    case Value(text, next) => ("\"" + text + "\"") + [next]
    case Broken(text, end) => ("\"" + text) + [end]
    case Run(body) => body
    case List(items) => "[" + Pieces(items) + "]"
    case Nested(members) => "{" + Pieces(members) + "}"
  }

  function Pieces(ps: seq<Piece>): string
    decreases ps, 1
  {
    if ps == [] then "" else Pieces(ps[..|ps| - 1]) + Rendered(ps[|ps| - 1])
  }

  /** One of the pieces themselves, not of what is in them, is a key of this name. */
  ghost predicate KeyedBy(ps: seq<Piece>, k: nat)
  {
    k < |NAMES| && exists i :: 0 <= i < |ps| && ps[i].Key? && ps[i].name == NAMES[k]
  }

  /** The places in the list of names that the direct keys have. */
  ghost function Marks(ps: seq<Piece>): set<nat>
  {
    set k | 0 <= k < |NAMES| && KeyedBy(ps, k)
  }

  lemma QuotedAlike(name: string, other: string)
    ensures "\"" + name + "\"" == "\"" + other + "\"" <==> name == other
  {
    var a, b := "\"" + name + "\"", "\"" + other + "\"";
    if a == b {
      assert name == a[1..|a| - 1] && other == b[1..|b| - 1];
    }
  }

  /** The bit of a quoted name is its place in the list. */
  lemma BitIsPlace(name: string)
    ensures forall k :: k in RequiredKey("\"" + name + "\"") <==> 0 <= k < |NAMES| && NAMES[k] == name
  {
    var key := "\"" + name + "\"";
    forall k | 0 <= k < |NAMES| ensures key == "\"" + NAMES[k] + "\"" <==> name == NAMES[k] {
      QuotedAlike(name, NAMES[k]);
    }
    SevenQuoted();
    assert NAMES[0] == "lane_output_version" && NAMES[1] == "task_restatement" && NAMES[2] == "verdict";
    assert NAMES[3] == "confidence" && NAMES[4] == "claims" && NAMES[5] == "residuals" && NAMES[6] == "uncertainties";
  }

  lemma SevenQuoted()
    ensures "\"" + "lane_output_version" + "\"" == "\"lane_output_version\""
    ensures "\"" + "task_restatement" + "\"" == "\"task_restatement\""
    ensures "\"" + "verdict" + "\"" == "\"verdict\"" && "\"" + "confidence" + "\"" == "\"confidence\""
    ensures "\"" + "claims" + "\"" == "\"claims\"" && "\"" + "residuals" + "\"" == "\"residuals\""
    ensures "\"" + "uncertainties" + "\"" == "\"uncertainties\""
  {
    LongQuoted();
  }

  lemma LongQuoted()
    ensures "\"" + "lane_output_version" + "\"" == "\"lane_output_version\""
    ensures "\"" + "task_restatement" + "\"" == "\"task_restatement\""
    ensures "\"" + "uncertainties" + "\"" == "\"uncertainties\""
  {
  }

  // ---- scanning ---------------------------------------------------------------------------------------

  /** The text s stands at place n. */
  predicate HasAt(t: string, n: nat, s: string)
  {
    n + |s| <= |t| && forall i :: 0 <= i < |s| ==> t[n + i] == s[i]
  }

  lemma HasBoth(t: string, n: nat, a: string, b: string)
    ensures HasAt(t, n, a + b) <==> HasAt(t, n, a) && HasAt(t, n + |a|, b)
  {
    if HasAt(t, n, a + b) {
      forall i | 0 <= i < |a| ensures t[n + i] == a[i] {
        assert t[n + i] == (a + b)[i];
      }
      forall i | 0 <= i < |b| ensures t[n + |a| + i] == b[i] {
        assert t[n + (|a| + i)] == (a + b)[|a| + i];
      }
      assert HasAt(t, n + |a|, b);
    }
    if HasAt(t, n, a) && HasAt(t, n + |a|, b) {
      forall i | 0 <= i < |a + b| ensures t[n + i] == (a + b)[i] {
        if i >= |a| {
          assert t[n + |a| + (i - |a|)] == b[i - |a|];
        }
      }
      assert HasAt(t, n, a + b);
    }
  }

  lemma CutOut(t: string, n: nat, s: string)
    requires HasAt(t, n, s)
    ensures t[n..n + |s|] == s
  {
  }

  // ---- one level --------------------------------------------------------------------------------------

  /** Directly inside the brace at i, which is inside those below it, with a array brackets open in it. */
  predicate Idle(t: string, n: nat, below: seq<nat>, i: nat, a: nat)
  {
    && n <= |t| && i < n && (forall d :: 0 <= d < |below| ==> below[d] < i)
    && At(t, n).stack == below + [i] && !At(t, n).inString && !At(t, n).escaped && Arrays(t, i, n) == a
  }

  /** Nothing has changed for the braces below i. */
  predicate Kept(t: string, n: nat, m: nat, i: nat)
    requires n <= |t| && m <= |t|
  {
    forall j :: 0 <= j < i ==> KeysIn(t, j, m) == KeysIn(t, j, n) && Arrays(t, j, m) == Arrays(t, j, n)
  }

  lemma {:induction false} QuietRun(t: string, n: nat, m: nat, below: seq<nat>, i: nat, a: nat)
    requires n <= m <= |t| && Idle(t, n, below, i, a) && forall k :: n <= k < m ==> Quiet(t[k])
    ensures Idle(t, m, below, i, a) && Kept(t, n, m, i) && KeysIn(t, i, m) == KeysIn(t, i, n)
    decreases m - n
  {
    hide Idle, Kept, KeysIn, Quiet;
    KeptItself(t, n, i);
    if n < m {
      QuietRun(t, n, m - 1, below, i, a);
      QuietStep(t, m - 1, below, i, a);
      KeptOn(t, n, m - 1, m, i);
    }
  }

  lemma QuietStep(t: string, n: nat, below: seq<nat>, i: nat, a: nat)
    requires n < |t| && Idle(t, n, below, i, a) && Quiet(t[n])
    ensures Idle(t, n + 1, below, i, a) && Kept(t, n, n + 1, i) && KeysIn(t, i, n + 1) == KeysIn(t, i, n)
  {
  }

  /** Inside a string begun at from. */
  predicate InText(t: string, n: nat, below: seq<nat>, i: nat, a: nat, from: nat)
  {
    n <= |t| && At(t, n) == Cursor(true, false, from, below + [i]) && Arrays(t, i, n) == a
  }

  lemma TextStep(t: string, n: nat, below: seq<nat>, i: nat, a: nat, from: nat)
    requires n < |t| && InText(t, n, below, i, a, from) && InnerChar(t[n])
    ensures InText(t, n + 1, below, i, a, from) && Kept(t, n, n + 1, i) && KeysIn(t, i, n + 1) == KeysIn(t, i, n)
  {
  }

  lemma EscapeStep(t: string, n: nat, below: seq<nat>, i: nat, a: nat, from: nat)
    requires n + 1 < |t| && InText(t, n, below, i, a, from) && t[n] == '\\'
    ensures InText(t, n + 2, below, i, a, from) && Kept(t, n, n + 2, i) && KeysIn(t, i, n + 2) == KeysIn(t, i, n)
  {
    assert At(t, n + 1) == Cursor(true, true, from, below + [i]);
    assert KeysIn(t, i, n + 1) == KeysIn(t, i, n) && Arrays(t, i, n + 1) == a && Kept(t, n, n + 1, i);
    assert KeysIn(t, i, n + 2) == KeysIn(t, i, n + 1) && Arrays(t, i, n + 2) == a && Kept(t, n + 1, n + 2, i);
  }

  lemma {:induction false} TextRun(t: string, n: nat, s: string, below: seq<nat>, i: nat, a: nat, from: nat)
    requires HasAt(t, n, s) && Inside(s) && InText(t, n, below, i, a, from)
    ensures n + |s| <= |t| && InText(t, n + |s|, below, i, a, from)
    ensures Kept(t, n, n + |s|, i) && KeysIn(t, i, n + |s|) == KeysIn(t, i, n)
    decreases |s|
  {
    hide InText, Kept, KeysIn;
    KeptItself(t, n, i);
    if s != "" {
      HeadStands(t, n, s);
      if s[0] == '\\' {
        EscapeStep(t, n, below, i, a, from);
        HasRest(t, n, s, 2);
        TextRun(t, n + 2, s[2..], below, i, a, from);
        KeptOn(t, n, n + 2, n + |s|, i);
      } else {
        TextStep(t, n, below, i, a, from);
        HasRest(t, n, s, 1);
        TextRun(t, n + 1, s[1..], below, i, a, from);
        KeptOn(t, n, n + 1, n + |s|, i);
      }
    }
  }

  lemma HeadStands(t: string, n: nat, s: string)
    requires HasAt(t, n, s) && s != ""
    ensures n + |s| <= |t| && t[n] == s[0]
  {
    assert t[n + 0] == s[0];
  }

  lemma HasRest(t: string, n: nat, s: string, k: nat)
    requires HasAt(t, n, s) && k <= |s|
    ensures HasAt(t, n + k, s[k..])
  {
    forall j | 0 <= j < |s[k..]| ensures t[n + k + j] == s[k..][j] {
      assert t[n + (k + j)] == s[k + j];
    }
  }

  lemma KeptItself(t: string, n: nat, i: nat)
    requires n <= |t|
    ensures Kept(t, n, n, i)
  {
  }

  lemma KeptOn(t: string, n: nat, m: nat, e: nat, i: nat)
    requires n <= |t| && m <= |t| && e <= |t| && Kept(t, n, m, i) && Kept(t, m, e, i)
    ensures Kept(t, n, e, i)
  {
  }

  /** A string opens. */
  lemma TextOpens(t: string, n: nat, below: seq<nat>, i: nat, a: nat)
    requires n < |t| && t[n] == '"' && Idle(t, n, below, i, a)
    ensures InText(t, n + 1, below, i, a, n) && Kept(t, n, n + 1, i) && KeysIn(t, i, n + 1) == KeysIn(t, i, n)
  {
  }

  /** A string closes: a key if it stands directly in the brace and a colon follows. */
  lemma TextCloses(t: string, n: nat, below: seq<nat>, i: nat, a: nat, from: nat)
    requires n < |t| && t[n] == '"' && InText(t, n, below, i, a, from) && i < from < n
    requires forall d :: 0 <= d < |below| ==> below[d] < i
    ensures Idle(t, n + 1, below, i, a) && Kept(t, n, n + 1, i)
    ensures KeysIn(t, i, n + 1) == KeysIn(t, i, n) +
            (if a == 0 && FollowsWithColon(t, n + 1) then RequiredKey(t[from..n + 1]) else {})
  {
    hide FollowsWithColon, RequiredKey;
    assert KeyText(t, n) == t[from..n + 1];
  }

  lemma TextBreaks(t: string, n: nat, below: seq<nat>, i: nat, a: nat, from: nat)
    requires n < |t| && (t[n] == '\n' || t[n] == '\r') && InText(t, n, below, i, a, from) && i < n
    requires forall d :: 0 <= d < |below| ==> below[d] < i
    ensures Idle(t, n + 1, below, i, a) && Kept(t, n, n + 1, i) && KeysIn(t, i, n + 1) == KeysIn(t, i, n)
  {
  }

  // ---- pieces -------------------------------------------------------------------------------------------

  /** From n to e the scanner has stayed in the brace at i and read these keys in it. */
  ghost predicate Passed(t: string, n: nat, e: nat, below: seq<nat>, i: nat, a: nat, keys: set<nat>)
  {
    n <= |t| && e <= |t| && Idle(t, e, below, i, a) && Kept(t, n, e, i) && KeysIn(t, i, e) == KeysIn(t, i, n) + keys
  }

  /** The keys a piece counts for, directly in the brace and not in an array. */
  ghost function Counted(ps: seq<Piece>, a: nat): set<nat>
  {
    if a == 0 then Marks(ps) else {}
  }

  lemma {:induction false} ColonFollows(t: string, m: nat, e: nat)
    requires m <= e < |t| && t[e] == ':' && forall k :: m <= k < e ==> White(t[k])
    ensures FollowsWithColon(t, m)
    decreases e - m
  {
    if m < e {
      assert t[m..][0] == t[m] && t[m..][1..] == t[m + 1..];
      ColonFollows(t, m + 1, e);
    } else {
      assert t[m..][0] == ':';
    }
  }

  lemma NoColonFollows(t: string, m: nat)
    requires m < |t| && !White(t[m]) && t[m] != ':'
    ensures !FollowsWithColon(t, m)
  {
    assert t[m..][0] == t[m];
  }

  lemma MarksOfKey(p: Piece)
    requires p.Key?
    ensures Marks([p]) == RequiredKey("\"" + p.name + "\"")
  {
    BitIsPlace(p.name);
    hide RequiredKey;
    forall k: nat ensures KeyedBy([p], k) <==> k < |NAMES| && p.name == NAMES[k] {
      assert [p][0] == p;
    }
  }

  lemma MarksOfOther(p: Piece)
    requires !p.Key?
    ensures Marks([p]) == {}
  {
    assert [p][0] == p;
  }

  /** A quoted text: what the scanner makes of it depends on whether a colon follows. */
  lemma QuotedStep(t: string, n: nat, text: string, below: seq<nat>, i: nat, a: nat)
    requires Idle(t, n, below, i, a) && HasAt(t, n, "\"" + text + "\"") && Inside(text)
    ensures var m := n + |text| + 2;
            && m <= |t|
            && Passed(t, n, m, below, i, a,
                      if a == 0 && FollowsWithColon(t, m) then RequiredKey("\"" + text + "\"") else {})
  {
    hide HasAt, Inside, FollowsWithColon, RequiredKey, KeysIn, Kept, Idle, InText;
    var m := n + |text| + 2;
    QuotedStands(t, n, text);
    IdleIsInside(t, n, below, i, a);
    TextOpens(t, n, below, i, a);
    TextRun(t, n + 1, text, below, i, a, n);
    TextCloses(t, m - 1, below, i, a, n);
    KeptOn(t, n, n + 1, m - 1, i);
    KeptOn(t, n, m - 1, m, i);
  }

  lemma IdleIsInside(t: string, n: nat, below: seq<nat>, i: nat, a: nat)
    requires Idle(t, n, below, i, a)
    ensures n <= |t| && i < n && forall d :: 0 <= d < |below| ==> below[d] < i
  {
  }

  lemma QuotedStands(t: string, n: nat, text: string)
    requires HasAt(t, n, "\"" + text + "\"")
    ensures var m := n + |text| + 2;
            && m <= |t| && t[n] == '"' && HasAt(t, n + 1, text) && t[m - 1] == '"' && t[n..m] == "\"" + text + "\""
  {
    CutOut(t, n, "\"" + text + "\"");
    HasBoth(t, n, "\"" + text, "\"");
    HasBoth(t, n, "\"", text);
    HeadStands(t, n, "\"");
    HeadStands(t, n + 1 + |text|, "\"");
  }

  lemma KeyStep(t: string, n: nat, p: Piece, below: seq<nat>, i: nat, a: nat)
    requires Idle(t, n, below, i, a) && p.Key? && Proper(p) && HasAt(t, n, Rendered(p))
    ensures Passed(t, n, n + |Rendered(p)|, below, i, a, Counted([p], a))
  {
    hide HasAt, Inside, FollowsWithColon, RequiredKey, KeysIn, Kept, Idle, Marks, Quiet, White, Rendered, Proper;
    var m, e := n + |p.name| + 2, n + |Rendered(p)|;
    KeyStands(t, n, p);
    MarksOfKey(p);
    QuotedStep(t, n, p.name, below, i, a);
    PassedIdle(t, n, m, below, i, a, Counted([p], a));
    QuietRun(t, m, e, below, i, a);
    KeptOn(t, n, m, e, i);
  }

  lemma KeyStands(t: string, n: nat, p: Piece)
    requires p.Key? && Proper(p) && HasAt(t, n, Rendered(p))
    ensures var m, e := n + |p.name| + 2, n + |Rendered(p)|;
            && m <= e <= |t| && HasAt(t, n, "\"" + p.name + "\"") && Inside(p.name) && FollowsWithColon(t, m)
            && forall k :: m <= k < e ==> Quiet(t[k])
  {
    var m, e := n + |p.name| + 2, n + |Rendered(p)| - 1;
    HasBoth(t, n, "\"" + p.name + "\"", p.gap + ":");
    HasBoth(t, m, p.gap, ":");
    HeadStands(t, e, ":");
    forall k | m <= k < e ensures White(t[k]) {
      assert t[m + (k - m)] == p.gap[k - m];
    }
    ColonFollows(t, m, e);
    WhiteIsQuiet(t, m, e);
  }

  lemma WhiteIsQuiet(t: string, m: nat, e: nat)
    requires m <= e < |t| && t[e] == ':' && forall k :: m <= k < e ==> White(t[k])
    ensures forall k :: m <= k < e + 1 ==> Quiet(t[k])
  {
  }

  lemma ValueStep(t: string, n: nat, p: Piece, below: seq<nat>, i: nat, a: nat)
    requires Idle(t, n, below, i, a) && p.Value? && Proper(p) && HasAt(t, n, Rendered(p))
    ensures Passed(t, n, n + |Rendered(p)|, below, i, a, {})
  {
    hide HasAt, Inside, FollowsWithColon, RequiredKey, KeysIn, Kept, Idle, White, Rendered, Proper, Quiet;
    var m := n + |p.text| + 2;
    ValueStands(t, n, p);
    QuotedStep(t, n, p.text, below, i, a);
    PassedIdle(t, n, m, below, i, a, {});
    QuietRun(t, m, m + 1, below, i, a);
    KeptOn(t, n, m, m + 1, i);
  }

  lemma ValueStands(t: string, n: nat, p: Piece)
    requires p.Value? && Proper(p) && HasAt(t, n, Rendered(p))
    ensures var m := n + |p.text| + 2;
            && n + |Rendered(p)| == m + 1 <= |t| && HasAt(t, n, "\"" + p.text + "\"") && Inside(p.text)
            && !FollowsWithColon(t, m) && Quiet(t[m])
  {
    var m := n + |p.text| + 2;
    HasBoth(t, n, "\"" + p.text + "\"", [p.next]);
    HeadStands(t, m, [p.next]);
    NoColonFollows(t, m);
  }

  lemma BrokenStep(t: string, n: nat, p: Piece, below: seq<nat>, i: nat, a: nat)
    requires Idle(t, n, below, i, a) && p.Broken? && Proper(p) && HasAt(t, n, Rendered(p))
    ensures Passed(t, n, n + |Rendered(p)|, below, i, a, {})
  {
    hide HasAt, Inside, KeysIn, Kept, At, Arrays, Idle, InText, Rendered, Proper;
    var m := n + 1 + |p.text|;
    BrokenStands(t, n, p);
    IdleIsInside(t, n, below, i, a);
    TextOpens(t, n, below, i, a);
    TextRun(t, n + 1, p.text, below, i, a, n);
    TextBreaks(t, m, below, i, a, n);
    KeptOn(t, n, n + 1, m, i);
    KeptOn(t, n, m, m + 1, i);
  }

  lemma BrokenStands(t: string, n: nat, p: Piece)
    requires p.Broken? && Proper(p) && HasAt(t, n, Rendered(p))
    ensures var m := n + 1 + |p.text|;
            && n + |Rendered(p)| == m + 1 <= |t| && t[n] == '"' && HasAt(t, n + 1, p.text) && Inside(p.text)
            && (t[m] == '\n' || t[m] == '\r')
  {
    HasBoth(t, n, "\"" + p.text, [p.end]);
    HasBoth(t, n, "\"", p.text);
    HeadStands(t, n, "\"");
    HeadStands(t, n + 1 + |p.text|, [p.end]);
  }

  lemma RunStep(t: string, n: nat, p: Piece, below: seq<nat>, i: nat, a: nat)
    requires Idle(t, n, below, i, a) && p.Run? && Proper(p) && HasAt(t, n, Rendered(p))
    ensures Passed(t, n, n + |Rendered(p)|, below, i, a, {})
  {
    var m := n + |p.body|;
    forall k | n <= k < m ensures Quiet(t[k]) {
      assert t[n + (k - n)] == p.body[k - n];
    }
    hide HasAt, KeysIn, Idle, Quiet;
    QuietRun(t, n, m, below, i, a);
  }

  lemma BracketOpens(t: string, n: nat, below: seq<nat>, i: nat, a: nat)
    requires n < |t| && t[n] == '[' && Idle(t, n, below, i, a)
    ensures Passed(t, n, n + 1, below, i, a + 1, {})
  {
  }

  lemma BracketCloses(t: string, n: nat, below: seq<nat>, i: nat, a: nat)
    requires n < |t| && t[n] == ']' && Idle(t, n, below, i, a + 1)
    ensures Passed(t, n, n + 1, below, i, a, {})
  {
  }

  lemma BraceOpens(t: string, n: nat, below: seq<nat>, i: nat, a: nat)
    requires n < |t| && t[n] == '{' && Idle(t, n, below, i, a)
    ensures Idle(t, n + 1, below + [i], n, 0) && Kept(t, n, n + 1, n)
  {
    FreshBrace(t, n, n + 1);
  }

  lemma BraceCloses(t: string, n: nat, below: seq<nat>, i: nat, a: nat, j: nat)
    requires n < |t| && t[n] == '}' && Idle(t, n, below + [i], j, 0) && i < j && Arrays(t, i, n) == a
    requires forall d :: 0 <= d < |below| ==> below[d] < i
    ensures Idle(t, n + 1, below, i, a) && Kept(t, n, n + 1, j)
  {
    assert (below + [i] + [j])[..|below| + 1] == below + [i];
  }

  /** What is passed in two parts is passed. */
  lemma PassedOn(t: string, n: nat, m: nat, e: nat, below: seq<nat>, i: nat, a: nat, b: nat, keys: set<nat>, more: set<nat>)
    requires Passed(t, n, m, below, i, b, keys) && Passed(t, m, e, below, i, a, more)
    ensures Passed(t, n, e, below, i, a, keys + more)
  {
    hide Idle, KeysIn, Kept;
    KeptOn(t, n, m, e, i);
  }

  ghost predicate AllProper(ps: seq<Piece>)
  {
    forall i :: 0 <= i < |ps| ==> Proper(ps[i])
  }

  lemma MarksGrow(ps: seq<Piece>, p: Piece)
    ensures Marks(ps + [p]) == Marks(ps) + Marks([p])
  {
    assert [p][0] == p && (ps + [p])[|ps|] == p;
    assert forall i :: 0 <= i < |ps| ==> (ps + [p])[i] == ps[i];
    forall k: nat ensures KeyedBy(ps + [p], k) <==> KeyedBy(ps, k) || KeyedBy([p], k) {
    }
  }

  lemma {:induction false} PieceStep(t: string, n: nat, p: Piece, below: seq<nat>, i: nat, a: nat)
    requires Idle(t, n, below, i, a) && Proper(p) && HasAt(t, n, Rendered(p))
    ensures Passed(t, n, n + |Rendered(p)|, below, i, a, Counted([p], a))
    decreases p, 0
  {
    hide Idle, Kept, KeysIn, HasAt;
    if !p.Key? {
      MarksOfOther(p);
    }
    match p {
      case Key(_, _) => KeyStep(t, n, p, below, i, a);
      case Value(_, _) => ValueStep(t, n, p, below, i, a);
      case Broken(_, _) => BrokenStep(t, n, p, below, i, a);
      case Run(_) => RunStep(t, n, p, below, i, a);
      case List(items) => ListStep(t, n, items, below, i, a);
      case Nested(members) => NestedStep(t, n, members, below, i, a);
    }
  }

  lemma EnclosedStands(t: string, n: nat, open: string, body: string, close: string)
    requires HasAt(t, n, open + body + close) && |open| == 1 && |close| == 1
    ensures var m := n + 1 + |body|; m < |t| && t[n] == open[0] && HasAt(t, n + 1, body) && t[m] == close[0]
  {
    HasBoth(t, n, open + body, close);
    HasBoth(t, n, open, body);
    HeadStands(t, n, open);
    HeadStands(t, n + 1 + |body|, close);
  }

  lemma {:induction false} ListStep(t: string, n: nat, items: seq<Piece>, below: seq<nat>, i: nat, a: nat)
    requires Idle(t, n, below, i, a) && AllProper(items) && HasAt(t, n, "[" + Pieces(items) + "]")
    ensures Passed(t, n, n + |Pieces(items)| + 2, below, i, a, {})
    decreases items, 2
  {
    hide Kept, KeysIn, HasAt, Idle, Passed, AllProper, Pieces, Marks;
    var m := n + 1 + |Pieces(items)|;
    EnclosedStands(t, n, "[", Pieces(items), "]");
    BracketOpens(t, n, below, i, a);
    PassedIdle(t, n, n + 1, below, i, a + 1, {});
    PiecesStep(t, n + 1, items, below, i, a + 1);
    PassedIdle(t, n + 1, m, below, i, a + 1, {});
    BracketCloses(t, m, below, i, a);
    var none: set<nat> := {};
    assert none + none == none;
    PassedOn(t, n, n + 1, m, below, i, a + 1, a + 1, none, none);
    PassedOn(t, n, m, m + 1, below, i, a, a + 1, none, none);
  }

  /** What is kept for the braces below a later one passes the innermost of them by. */
  lemma PassedBy(t: string, n: nat, e: nat, below: seq<nat>, i: nat, a: nat, j: nat)
    requires n <= |t| && e <= |t| && Idle(t, e, below, i, a) && Kept(t, n, e, j) && i < j
    ensures Passed(t, n, e, below, i, a, {})
  {
  }

  lemma StillInArrays(t: string, n: nat, m: nat, below: seq<nat>, i: nat, a: nat, j: nat)
    requires n <= |t| && m <= |t| && Idle(t, n, below, i, a) && Kept(t, n, m, j) && i < j
    ensures Arrays(t, i, m) == a && i < n && forall d :: 0 <= d < |below| ==> below[d] < i
  {
  }

  lemma {:induction false} NestedStep(t: string, n: nat, members: seq<Piece>, below: seq<nat>, i: nat, a: nat)
    requires Idle(t, n, below, i, a) && AllProper(members) && HasAt(t, n, "{" + Pieces(members) + "}")
    ensures Passed(t, n, n + |Pieces(members)| + 2, below, i, a, {})
    decreases members, 2
  {
    hide KeysIn, HasAt, At, Arrays, Idle, Kept, AllProper, Pieces, Marks;
    var m := n + 1 + |Pieces(members)|;
    EnclosedStands(t, n, "{", Pieces(members), "}");
    IdleIsInside(t, n, below, i, a);
    BraceOpens(t, n, below, i, a);
    PiecesStep(t, n + 1, members, below + [i], n, 0);
    KeptOn(t, n, n + 1, m, n);
    StillInArrays(t, n, m, below, i, a, n);
    BraceCloses(t, m, below, i, a, n);
    KeptOn(t, n, m, m + 1, n);
    PassedBy(t, n, m + 1, below, i, a, n);
  }

  lemma LastPiece(ps: seq<Piece>)
    requires ps != []
    ensures var before, p := ps[..|ps| - 1], ps[|ps| - 1];
            && Pieces(ps) == Pieces(before) + Rendered(p) && before + [p] == ps
            && (AllProper(ps) ==> AllProper(before) && Proper(p))
  {
    hide Proper;
  }

  lemma NothingPassed(t: string, n: nat, below: seq<nat>, i: nat, a: nat)
    requires Idle(t, n, below, i, a)
    ensures Passed(t, n, n, below, i, a, Counted([], a))
  {
    assert Marks([]) == {};
  }

  lemma {:induction false} PiecesStep(t: string, n: nat, ps: seq<Piece>, below: seq<nat>, i: nat, a: nat)
    requires Idle(t, n, below, i, a) && AllProper(ps) && HasAt(t, n, Pieces(ps))
    ensures Passed(t, n, n + |Pieces(ps)|, below, i, a, Counted(ps, a))
    decreases ps, 1
  {
    if ps == [] {
      NothingPassed(t, n, below, i, a);
    } else {
      hide Idle, Kept, KeysIn, HasAt, Passed, Counted, AllProper, Proper, Pieces, Rendered;
      var before, p := ps[..|ps| - 1], ps[|ps| - 1];
      LastPiece(ps);
      HasBoth(t, n, Pieces(before), Rendered(p));
      PiecesStep(t, n, before, below, i, a);
      var m := n + |Pieces(before)|;
      PassedIdle(t, n, m, below, i, a, Counted(before, a));
      PieceStep(t, m, p, below, i, a);
      PassedOn(t, n, m, m + |Rendered(p)|, below, i, a, a, Counted(before, a), Counted([p], a));
      CountedGrows(before, p, a);
    }
  }

  lemma CountedGrows(ps: seq<Piece>, p: Piece, a: nat)
    ensures Counted(ps + [p], a) == Counted(ps, a) + Counted([p], a)
  {
    MarksGrow(ps, p);
  }

  lemma PassedIdle(t: string, n: nat, m: nat, below: seq<nat>, i: nat, a: nat, keys: set<nat>)
    requires Passed(t, n, m, below, i, a, keys)
    ensures Idle(t, m, below, i, a)
  {
  }

  // ---- whole texts ----------------------------------------------------------------------------------------

  /** Text without an opening brace. */
  predicate Prose(s: string)
  {
    forall i :: 0 <= i < |s| ==> s[i] != '{'
  }

  /** No brace is open: quotation marks, brackets and closing braces mean nothing. */
  predicate Outside(t: string, n: nat)
  {
    n <= |t| && At(t, n).stack == [] && !At(t, n).inString && !At(t, n).escaped
  }

  lemma {:induction false} ProseRun(t: string, n: nat, s: string)
    requires Outside(t, n) && HasAt(t, n, s) && Prose(s)
    ensures Outside(t, n + |s|)
    decreases |s|
  {
    if s != "" {
      HeadStands(t, n, s);
      HasRest(t, n, s, 1);
      ProseRun(t, n + 1, s[1..]);
    }
  }

  /** An object that stands outside every brace closes where its text ends, with the marks of its direct keys. */
  lemma ObjectCloses(t: string, n: nat, ps: seq<Piece>)
    requires Outside(t, n) && AllProper(ps) && HasAt(t, n, "{" + Pieces(ps) + "}")
    ensures var e := n + |Pieces(ps)| + 2;
            e <= |t| && Outside(t, e) && Closes(t, n, e - 1) && KeysIn(t, n, e - 1) == Marks(ps)
  {
    hide KeysIn, Pieces, Marks, AllProper, HasAt, Outside, Closes, Idle;
    var m := n + 1 + |Pieces(ps)|;
    EnclosedStands(t, n, "{", Pieces(ps), "}");
    ObjectOpens(t, n);
    PiecesStep(t, n + 1, ps, [], n, 0);
    assert KeysIn(t, n, m) == {} + Marks(ps) == Marks(ps);
    ObjectEnds(t, m, n);
  }

  lemma ObjectOpens(t: string, n: nat)
    requires Outside(t, n) && n < |t| && t[n] == '{'
    ensures Idle(t, n + 1, [], n, 0) && KeysIn(t, n, n + 1) == {}
  {
    FreshBrace(t, n, n + 1);
    assert [] + [n] == [n];
  }

  lemma ObjectEnds(t: string, m: nat, n: nat)
    requires Idle(t, m, [], n, 0) && m < |t| && t[m] == '}'
    ensures Outside(t, m + 1) && Closes(t, n, m)
  {
    assert [] + [n] == [n];
  }

  /** A block that starts where the object starts is the object's. */
  lemma OnlyBlockThere(t: string, n: nat, ps: seq<Piece>, b: Block)
    requires Outside(t, n) && AllProper(ps) && HasAt(t, n, "{" + Pieces(ps) + "}") && IsBlock(t, b) && b.start == n
    ensures b == Block(n, Some(n + |Pieces(ps)| + 2), Marks(ps)) && Marks(ps) != {}
  {
    hide KeysIn, Pieces, Marks, AllProper, HasAt, Outside, Closes;
    var e := n + |Pieces(ps)| + 2;
    ObjectCloses(t, n, ps);
    SameBlock(t, n, e, b);
  }

  lemma SameBlock(t: string, n: nat, e: nat, b: Block)
    requires 0 < e <= |t| && Closes(t, n, e - 1) && IsBlock(t, b) && b.start == n
    ensures b == Block(n, Some(e), KeysIn(t, n, e - 1)) && b.keys != {}
  {
    ClosedIsGone(t, n, e - 1);
    if b.end.None? {
      GoneForGood(t, n, e, |t|);
    } else {
      ClosesOnce(t, n, e - 1, b.end.value - 1);
    }
  }

  /** The text of an object between two pieces of prose. */
  function Around(prose: string, ps: seq<Piece>, more: string): string
  {
    prose + ("{" + Pieces(ps) + "}") + more
  }

  lemma PartsStand(a: string, b: string, c: string)
    ensures var t := a + b + c;
            HasAt(t, 0, a) && HasAt(t, |a|, b) && HasAt(t, |a| + |b|, c) && |t| == |a| + |b| + |c|
  {
    var t := a + b + c;
    assert HasAt(t, 0, t);
    HasBoth(t, 0, a + b, c);
    HasBoth(t, 0, a, b);
  }

  lemma BraceStandsThere(t: string, i: nat)
    requires i < |t| && i in At(t, i + 1).stack
    ensures t[i] == '{'
  {
    StackRises(t, i);
    StackStep(t, i, i);
  }

  lemma NoBrace(t: string, n: nat, s: string)
    requires HasAt(t, n, s) && Prose(s)
    ensures n + |s| <= |t| && forall k :: n <= k < n + |s| ==> t[k] != '{'
  {
    forall k | n <= k < n + |s| ensures t[k] != '{' {
      assert t[n + (k - n)] == s[k - n];
    }
  }

  /** Every block starts at an opening brace, and prose has none. */
  lemma StartsInside(a: string, whole: string, c: string, o: Block)
    requires Prose(a) && Prose(c) && IsBlock(a + whole + c, o)
    ensures |a| <= o.start < |a| + |whole|
  {
    var t := a + whole + c;
    BlockIsOpened(t, o);
    BraceStandsThere(t, o.start);
    PartsStand(a, whole, c);
    NoBrace(t, 0, a);
    NoBrace(t, |a| + |whole|, c);
  }

  lemma ObjectStands(prose: string, ps: seq<Piece>, more: string)
    requires AllProper(ps) && Prose(prose) && Prose(more)
    ensures var t, n := Around(prose, ps, more), |prose|;
            Outside(t, n) && HasAt(t, n, "{" + Pieces(ps) + "}") && |t| == n + |Pieces(ps)| + 2 + |more|
  {
    PartsStand(prose, "{" + Pieces(ps) + "}", more);
    assert Outside(Around(prose, ps, more), 0);
    hide HasAt, Pieces, Prose;
    ProseRun(Around(prose, ps, more), 0, prose);
  }

  lemma ObjectIsBlock(t: string, n: nat, ps: seq<Piece>)
    requires Outside(t, n) && AllProper(ps) && HasAt(t, n, "{" + Pieces(ps) + "}") && Marks(ps) != {}
    ensures IsBlock(t, Block(n, Some(n + |Pieces(ps)| + 2), Marks(ps)))
  {
    hide KeysIn, Pieces, Marks, AllProper, HasAt, Closes, Outside, IsBlock;
    ObjectCloses(t, n, ps);
    BlockFrom(t, n, n + |Pieces(ps)| + 2, Marks(ps));
  }

  lemma BlockFrom(t: string, n: nat, e: nat, keys: set<nat>)
    requires 0 < e <= |t| && Closes(t, n, e - 1) && KeysIn(t, n, e - 1) == keys && keys != {}
    ensures IsBlock(t, Block(n, Some(e), keys))
  {
    hide KeysIn, Closes;
  }

  lemma BlocksStartInside(prose: string, ps: seq<Piece>, more: string, o: Block)
    requires Prose(prose) && Prose(more) && IsBlock(Around(prose, ps, more), o)
    ensures |prose| <= o.start < |prose| + |Pieces(ps)| + 2
  {
    hide Pieces, Prose, IsBlock;
    StartsInside(prose, "{" + Pieces(ps) + "}", more, o);
  }

  /** The object's block is there and encloses every other, when it has marks. */
  lemma ObjectIsOutermost(prose: string, ps: seq<Piece>, more: string, o: Block)
    requires AllProper(ps) && Prose(prose) && Prose(more) && Marks(ps) != {}
    ensures var t, b := Around(prose, ps, more), Block(|prose|, Some(|prose| + |Pieces(ps)| + 2), Marks(ps));
            && IsBlock(t, b)
            && (IsBlock(t, o) ==> b.start <= o.start < b.end.value && (o.start == b.start ==> o == b))
  {
    hide Around, Pieces, Marks, AllProper, HasAt, Prose, IsBlock, Outside;
    var t, n := Around(prose, ps, more), |prose|;
    ObjectStands(prose, ps, more);
    ObjectIsBlock(t, n, ps);
    if IsBlock(t, o) {
      BlocksStartInside(prose, ps, more, o);
      if o.start == n {
        OnlyBlockThere(t, n, ps, o);
      }
    }
  }

  /** In prose around it, one object, with strings, escapes, strings broken off, arrays and objects inside it, is returned
      whole, and alone, when one of the seven names stands in it as a direct key, its marks being the places of those names;
      and when none does, no block starts where it starts. */
  lemma ObjectIsReturned(prose: string, ps: seq<Piece>, more: string)
    requires AllProper(ps) && Prose(prose) && Prose(more)
    ensures var top := TopLevel(SortBlocks(Family(Around(prose, ps, more))));
            if Marks(ps) != {} then top == [Block(|prose|, Some(|prose| + |Pieces(ps)| + 2), Marks(ps))]
            else forall b :: b in top ==> b.start != |prose|
  {
    hide Around, Pieces, Marks, AllProper, Prose, TopLevel, SortBlocks, Family, IsBlock, HasAt, Outside;
    var t, n := Around(prose, ps, more), |prose|;
    var top := TopLevel(SortBlocks(Family(t)));
    var b := Block(n, Some(n + |Pieces(ps)| + 2), Marks(ps));
    BlocksAreExact(t);
    if Marks(ps) != {} {
      forall o ensures IsBlock(t, b)
                       && (IsBlock(t, o) ==> n <= o.start < b.end.value && (o.start == n ==> o == b)) {
        ObjectIsOutermost(prose, ps, more, o);
      }
      OnlyOne(t, top, b);
    } else {
      forall o | o in top ensures o.start != n {
        assert OutermostIn(t, o);
        NoBlockThere(prose, ps, more, o);
      }
    }
  }

  lemma NoBlockThere(prose: string, ps: seq<Piece>, more: string, o: Block)
    requires AllProper(ps) && Prose(prose) && Prose(more) && Marks(ps) == {}
    requires IsBlock(Around(prose, ps, more), o)
    ensures o.start != |prose|
  {
    ObjectStands(prose, ps, more);
    hide Pieces, Marks, AllProper, Prose, IsBlock, HasAt, Outside, Around;
    if o.start == |prose| {
      OnlyBlockThere(Around(prose, ps, more), |prose|, ps, o);
    }
  }

  /** A block that encloses every other is alone at the top. */
  lemma OnlyOne(t: string, top: seq<Block>, b: Block)
    requires Separate(top) && forall o :: o in top <==> OutermostIn(t, o)
    requires IsBlock(t, b) && b.end.Some?
    requires forall o :: IsBlock(t, o) ==> b.start <= o.start < b.end.value && (o.start == b.start ==> o == b)
    ensures top == [b]
  {
    hide IsBlock;
    assert OutermostIn(t, b);
    forall j | 0 <= j < |top| ensures top[j] == b {
      assert top[j] in top;
      assert OutermostIn(t, top[j]);
    }
    assert b in top;
    assert |top| > 1 ==> top[0].end.Some? && top[0].end.value <= top[1].start;
    assert |top| == 1;
  }
}
