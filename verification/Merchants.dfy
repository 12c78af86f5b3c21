/** Merchant names: NormalizeMerchant, which folds a description and drops a branch number from
    its end, and Categorize, which looks up the user's rules by the normalized name. */
module Merchants {
  import opened Wrappers
  import opened Text

  // ------------------------------------------------------- the branch number

  /** [0-9０-９-]. */
  predicate Tail(c: char) {
    '0' <= c <= '9' || '０' <= c <= '９' || c == '-'
  }

  /** \s. */
  predicate Gap(c: char) {
    c == '\t' || c == '\n' || c == '\U{000C}' || c == '\r' || c == ' '
  }

  /** [\s　]. */
  predicate WideGap(c: char) {
    Gap(c) || c == '　'
  }

  predicate Branch(s: string) {
    s == "" || s == "支店" || s == "店" || s == "店舗"
  }

  /** The pattern [\s　]*(支店|店|店舗)?\s*[0-9０-９-]+$ matches from i on, with the branch
      word from h to j and the number from k on. */
  predicate MatchAt(s: string, i: nat, h: nat, j: nat, k: nat) {
    && i <= h <= j <= k < |s| && Branch(s[h..j])
    && (forall x :: i <= x < h ==> WideGap(s[x]))
    && (forall x :: j <= x < k ==> Gap(s[x]))
    && (forall x :: k <= x < |s| ==> Tail(s[x]))
  }

  /** The longest stretch before k of characters of a kind. */
  function Back(s: string, k: nat, kind: char -> bool): (b: nat)
    requires k <= |s|
    ensures b <= k && forall x :: b <= x < k ==> kind(s[x])
    ensures b > 0 ==> !kind(s[b - 1])
  {
    if k > 0 && kind(s[k - 1]) then Back(s, k - 1, kind) else k
  }

  function BranchLength(s: string, j: nat): (n: nat)
    requires j <= |s|
    ensures n <= j && Branch(s[j - n..j])
  {
    if j >= 2 && ((s[j - 2] == '支' && s[j - 1] == '店') || (s[j - 2] == '店' && s[j - 1] == '舗')) then 2
    else if j >= 1 && s[j - 1] == '店' then 1
    else 0
  }

  /** Where the branch number begins, with its word and the gaps; the end if there is none. */
  function Start(s: string): (i: nat)
    ensures i <= |s|
  {
    var k := Back(s, |s|, Tail);
    if k == |s| then |s|
    else
      var j := Back(s, k, Gap);
      Back(s, j - BranchLength(s, j), WideGap)
  }

  /** A regular expression replaces its leftmost match: no match begins further left. */
  lemma NoMatchFurtherLeft(s: string, i: nat, h: nat, j: nat, k: nat)
    requires MatchAt(s, i, h, j, k)
    ensures Start(s) <= i
  {
    var k0 := Back(s, |s|, Tail);
    assert k0 <= k;
    if k > k0 {
      assert Tail(s[k - 1]);
      NoBranchEndsIn(s, h, j);
    } else {
      BranchIsLongest(s, i, h, j, k);
    }
  }

  /** A branch word ends in neither a gap nor a digit. */
  lemma NoBranchEndsIn(s: string, h: nat, j: nat)
    requires h <= j <= |s| && Branch(s[h..j])
    ensures h < j ==> !Tail(s[j - 1]) && !WideGap(s[j - 1])
  {
    if h < j {
      assert s[h..j][j - h - 1] == s[j - 1];
    }
  }

  lemma BranchIsLongest(s: string, i: nat, h: nat, j: nat, k: nat)
    requires MatchAt(s, i, h, j, k) && k == Back(s, |s|, Tail)
    ensures Start(s) <= i
  {
    var j0 := Back(s, k, Gap);
    var h0 := j0 - BranchLength(s, j0);
    assert j0 <= j;
    NoBranchEndsIn(s, h, j);
    NoBranchEndsIn(s, h0, j0);
    if j == j0 && h < j {
      assert s[h..j][j - h - 1] == s[j - 1];
      assert j - h == 2 ==> s[h..j][0] == s[j - 2];
      assert h0 <= h;
      if h0 < h {
        assert j0 - h0 == 2 && h == j - 1 && !WideGap(s[h - 1]);
      }
    }
  }

  /** What ReplaceAllString leaves: everything before the leftmost match of the pattern. */
  lemma StartIsLeftmostMatch(s: string)
    ensures Start(s) < |s| <==> exists i: nat, h: nat, j: nat, k: nat :: MatchAt(s, i, h, j, k)
    ensures Start(s) < |s| ==> exists h: nat, j: nat, k: nat :: MatchAt(s, Start(s), h, j, k)
    ensures forall i: nat, h: nat, j: nat, k: nat :: MatchAt(s, i, h, j, k) ==> Start(s) <= i
    ensures Start(s) < |s| <==> s != "" && Tail(s[|s| - 1])
  {
    forall i: nat, h: nat, j: nat, k: nat | MatchAt(s, i, h, j, k)
      ensures Start(s) <= i
    {
      NoMatchFurtherLeft(s, i, h, j, k);
    }
    var k := Back(s, |s|, Tail);
    if k < |s| {
      var j := Back(s, k, Gap);
      assert MatchAt(s, Start(s), j - BranchLength(s, j), j, k);
    }
  }

  // ----------------------------------------------------------- normalization

  /** strings.ToLower with `lower` for one character. */
  function Lowered(s: string, lower: char -> char): (r: string)
    ensures |r| == |s|
    ensures forall i :: 0 <= i < |s| ==> r[i] == lower(s[i])
  {
    seq(|s|, i requires 0 <= i < |s| => lower(s[i]))
  }

  /** strings.Join(strings.Fields(s), " "). */
  function Squeezed(s: string): string {
    if s == "" then ""
    else
      var n := |s| - 1;
      var before := Squeezed(s[..n]);
      if IsSpace(s[n]) then before
      else if n > 0 && IsSpace(s[n - 1]) && before != "" then before + [' '] + [s[n]]
      else before + [s[n]]
  }

  function Normalize(description: string, lower: char -> char): string {
    var text := Squeezed(Lowered(TrimSpace(description), lower));
    TrimSpace(text[..Start(text)])
  }

  /** Lower case is lower case, and a space stays one. */
  ghost predicate LowerCase(lower: char -> char) {
    lower(' ') == ' ' && forall c :: lower(lower(c)) == lower(c)
  }

  /** Words with single spaces between them; at the end there may be one more. */
  ghost predicate Spaced(s: string) {
    && (forall i :: 0 <= i < |s| && IsSpace(s[i]) ==> s[i] == ' ' && i > 0)
    && (forall i :: 0 < i < |s| && IsSpace(s[i]) ==> !IsSpace(s[i - 1]))
  }

  ghost predicate Tidy(s: string) {
    Spaced(s) && (s != "" ==> !IsSpace(s[|s| - 1]))
  }

  lemma {:induction false} SqueezedIsTidy(s: string)
    ensures Tidy(Squeezed(s))
  {
    if s != "" {
      SqueezedIsTidy(s[..|s| - 1]);
    }
  }

  ghost predicate Settled(s: string, lower: char -> char) {
    forall i :: 0 <= i < |s| ==> lower(s[i]) == s[i]
  }

  lemma {:induction false} SqueezedStaysSettled(s: string, lower: char -> char)
    requires LowerCase(lower) && Settled(s, lower)
    ensures Settled(Squeezed(s), lower)
  {
    if s != "" {
      SqueezedStaysSettled(s[..|s| - 1], lower);
    }
  }

  lemma SpacedPrefix(s: string, k: nat)
    requires Spaced(s) && k <= |s|
    ensures Spaced(s[..k])
  {
    assert forall i :: 0 <= i < k ==> s[..k][i] == s[i];
  }

  lemma {:induction false} SpacedIsSqueezed(s: string)
    requires Spaced(s)
    ensures Squeezed(s) == if s != "" && IsSpace(s[|s| - 1]) then s[..|s| - 1] else s
  {
    if s != "" {
      var n := |s| - 1;
      SpacedPrefix(s, n);
      SpacedIsSqueezed(s[..n]);
      SqueezedLast(s);
    }
  }

  lemma SqueezedAfterGap(s: string)
    requires |s| >= 2 && !IsSpace(s[|s| - 1]) && IsSpace(s[|s| - 2]) && s[|s| - 2] == ' '
    requires Squeezed(s[..|s| - 1]) == s[..|s| - 2] != ""
    ensures Squeezed(s) == s
  {
    var n := |s| - 1;
    assert s == s[..n - 1] + [' '] + [s[n]];
  }

  lemma SqueezedLast(s: string)
    requires Spaced(s) && s != ""
    requires
      var n := |s| - 1;
      Squeezed(s[..n]) == if n > 0 && IsSpace(s[n - 1]) then s[..n - 1] else s[..n]
    ensures Squeezed(s) == if IsSpace(s[|s| - 1]) then s[..|s| - 1] else s
  {
    var n := |s| - 1;
    if IsSpace(s[n]) {
      assert n > 0 && !IsSpace(s[n - 1]);
    } else if n > 0 && IsSpace(s[n - 1]) {
      assert s[n - 1] == ' ' && n - 1 > 0;
      SqueezedAfterGap(s);
    } else {
      assert s == s[..n] + [s[n]];
    }
  }

  /** Trimming a tidy text's beginning takes off one space at most. */
  lemma TrimmedPrefix(s: string, k: nat)
    requires Tidy(s) && k <= |s|
    ensures
      var t := TrimSpace(s[..k]);
      Tidy(t) && |t| <= k && t == s[..|t|] && (k == |s| ==> t == s)
  {
    var p := s[..k];
    var i := SkipSpaces(p, 0);
    assert i == 0 || p == "";
    var j := DropSpaces(p, i, |p|);
    assert TrimSpace(p) == s[..j];
    if k == |s| && s != "" {
      assert j == |s|;
      assert s[..j] == s;
    }
  }

  /** A normalized name is tidy and in lower case. */
  lemma NormalizedIsTidy(description: string, lower: char -> char)
    requires LowerCase(lower)
    ensures Tidy(Normalize(description, lower)) && Settled(Normalize(description, lower), lower)
  {
    var folded := Lowered(TrimSpace(description), lower);
    var text := Squeezed(folded);
    SqueezedIsTidy(folded);
    SqueezedStaysSettled(folded, lower);
    TrimmedPrefix(text, Start(text));
  }

  /** Normalizing a tidy name in lower case only drops its branch number. */
  lemma NormalizeTidy(name: string, lower: char -> char)
    requires Tidy(name) && Settled(name, lower)
    ensures Normalize(name, lower) == TrimSpace(name[..Start(name)])
  {
    TrimmedPrefix(name, |name|);
    assert name[..|name|] == name;
    assert TrimSpace(name) == name;
    assert Lowered(name, lower) == name;
    SpacedIsSqueezed(name);
  }

  /** A name that is still numbered is normalized further: normalizing twice is normalizing
      once exactly when the result does not end in a digit or a hyphen. */
  lemma NormalizedTwice(description: string, lower: char -> char)
    requires LowerCase(lower)
    ensures
      var name := Normalize(description, lower);
      Normalize(name, lower) == name <==> name == "" || !Tail(name[|name| - 1])
  {
    var name := Normalize(description, lower);
    NormalizedIsTidy(description, lower);
    NormalizeTidy(name, lower);
    StartIsLeftmostMatch(name);
    TrimmedPrefix(name, Start(name));
  }

  /** What the pattern leaves does not end in a space, so it is the normalized name. */
  lemma NormalizedIsCut(description: string, lower: char -> char)
    ensures
      var text := Squeezed(Lowered(TrimSpace(description), lower));
      Normalize(description, lower) == text[..Start(text)]
  {
    var text := Squeezed(Lowered(TrimSpace(description), lower));
    SqueezedIsTidy(Lowered(TrimSpace(description), lower));
    var k := Start(text);
    TrimmedPrefix(text, k);
    if 0 < k < |text| {
      StartIsLeftmostMatch(text);
      assert !WideGap(text[k - 1]);
      NoSpaceBefore(text, k);
    }
  }

  lemma NoSpaceBefore(text: string, k: nat)
    requires Tidy(text) && 0 < k <= |text| && !WideGap(text[k - 1])
    ensures TrimSpace(text[..k]) == text[..k]
  {
    var p := text[..k];
    assert p[k - 1] == text[k - 1] && !IsSpace(p[k - 1]);
    assert !IsSpace(p[0]);
    assert SkipSpaces(p, 0) == 0 && DropSpaces(p, 0, k) == k;
    assert p[0..k] == p;
  }

  /** The same, said of the description: with the folded text in hand, normalizing twice is
      normalizing once exactly when what stands before its branch number, if anything does,
      ends in neither a digit nor a hyphen. */
  lemma NormalizedTwiceIff(description: string, lower: char -> char)
    requires LowerCase(lower)
    ensures
      var text := Squeezed(Lowered(TrimSpace(description), lower));
      Normalize(Normalize(description, lower), lower) == Normalize(description, lower)
      <==> Start(text) == 0 || !Tail(text[Start(text) - 1])
  {
    NormalizedIsCut(description, lower);
    NormalizedTwice(description, lower);
  }

  /** The word for a branch, and none only where the name does not end like one. */
  predicate BranchWord(word: string, last: char) {
    word == "支店" || word == "店" || word == "店舗" || (word == "" && last != '店' && last != '舗')
  }

  predicate BranchNumber(number: string) {
    number != "" && forall i :: 0 <= i < |number| ==>
      '0' <= number[i] <= '9' || '０' <= number[i] <= '９' || number[i] == '-'
  }

  lemma StartOfNumbered(store: string, word: string, number: string, s: string)
    requires s == store + " " + word + number && BranchNumber(number)
    requires store != "" && !IsSpace(store[|store| - 1]) && BranchWord(word, store[|store| - 1])
    ensures Start(s) == |store|
  {
    var n := |store|;
    PartsOf(store, word, number, s);
    NumberIsTail(s, n + 1 + |word|);
    StartAtGap(s, n, n + 1 + |word|);
  }

  /** A store's name, a space, a word for a branch or none, and a number of any digits and
      hyphens: what is left is the store's name. */
  lemma BranchNumberIsDropped(store: string, word: string, number: string, s: string, lower: char -> char)
    requires s == store + " " + word + number && Settled(s, lower) && BranchNumber(number)
    requires Tidy(store) && store != "" && BranchWord(word, store[|store| - 1])
    ensures Normalize(s, lower) == store
  {
    StartOfNumbered(store, word, number, s);
    NumberedIsTidy(store, word, number, s);
    PartsOf(store, word, number, s);
    NormalizeCuts(s, |store|, lower);
  }

  lemma NormalizeCuts(s: string, n: nat, lower: char -> char)
    requires Tidy(s) && Settled(s, lower) && Start(s) == n && 0 < n <= |s| && !WideGap(s[n - 1])
    ensures Normalize(s, lower) == s[..n]
  {
    NormalizeTidy(s, lower);
    NoSpaceBefore(s, n);
  }

  lemma PartsOf(store: string, word: string, number: string, s: string)
    requires s == store + " " + word + number && store != ""
    ensures
      var n := |store|;
      var k := n + 1 + |word|;
      && s[..n] == store && s[n] == ' ' && s[n - 1] == store[n - 1] && s[n + 1..k] == word
      && (word != "" ==> s[k - 1] == word[|word| - 1])
      && forall i :: k <= i < |s| ==> s[i] == number[i - k]
  {
  }

  lemma NumberedIsTidy(store: string, word: string, number: string, s: string)
    requires s == store + " " + word + number && Tidy(store) && store != ""
    requires BranchNumber(number) && BranchWord(word, store[|store| - 1])
    ensures Tidy(s)
  {
    var rest := word + number;
    assert s == store + " " + rest;
    assert forall i :: 0 <= i < |word| ==> !IsSpace(word[i]);
    assert forall i :: |word| <= i < |rest| ==> rest[i] == number[i - |word|];
    TidyAndMore(store, rest, s);
  }

  lemma TidyAndMore(store: string, rest: string, s: string)
    requires Tidy(store) && store != "" && rest != "" && forall i :: 0 <= i < |rest| ==> !IsSpace(rest[i])
    requires s == store + " " + rest
    ensures Tidy(s)
  {
    var n := |store|;
    assert forall i :: n < i < |s| ==> s[i] == rest[i - n - 1];
    assert forall i :: 0 <= i < n ==> s[i] == store[i];
  }

  lemma NumberIsTail(s: string, k: nat)
    requires 0 < k <= |s| && !Tail(s[k - 1]) && forall i :: k <= i < |s| ==> Tail(s[i])
    ensures Back(s, |s|, Tail) == k
  {
    assert Back(s, |s|, Tail) <= k;
  }

  /** The match begins at the gap behind the name. */
  lemma StartAtGap(s: string, n: nat, k: nat)
    requires 0 < n < k < |s| && s[n] == ' ' && !WideGap(s[n - 1]) && Back(s, |s|, Tail) == k
    requires BranchWord(s[n + 1..k], s[n - 1])
    ensures Start(s) == n
  {
    assert forall i :: n < i < k ==> s[i] == s[n + 1..k][i - n - 1];
    if k == n + 1 {
      assert Back(s, k, Gap) == n;
      assert BranchLength(s, n) == 0;
    } else {
      assert Back(s, k, Gap) == k;
      assert BranchLength(s, k) == k - n - 1;
      assert Back(s, n + 1, WideGap) == n;
    }
  }

  // ---------------------------------------------------------- categorization

  datatype Keywords = Keywords(words: seq<string>, category: string)

  const UNCLASSIFIED := "未分類"

  const KEYWORDS: seq<Keywords> := [
    Keywords(["居酒屋", "bar", "ビール", "ワイン", "鳥貴族"], "酒・飲み会"),
    Keywords(["netflix", "spotify", "apple.com/bill", "subscription"], "サブスクリプション"),
    Keywords(["コンビニ", "セブン", "lawson", "ローソン", "ファミリーマート"], "コンビニ"),
    Keywords(["タクシー", "taxi", "uber trip", "go taxi"], "タクシー"),
    Keywords(["jr", "suica", "pasmo", "鉄道", "交通"], "交通"),
    Keywords(["書籍", "book", "udemy", "技術書"], "学習"),
    Keywords(["病院", "クリニック", "薬局", "ジム"], "健康"),
    Keywords(["レストラン", "食堂", "カフェ", "cafe", "restaurant"], "外食"),
    Keywords(["スーパー", "market", "食品"], "食費"),
    Keywords(["amazon", "楽天", "百貨店"], "買い物"),
    Keywords(["映画", "cinema", "ゲーム"], "娯楽")
  ]

  predicate Mentions(name: string, words: seq<string>, lower: char -> char) {
    exists i :: 0 <= i < |words| && Contains(name, Lowered(words[i], lower))
  }

  /** The category of the first group of keywords that the name mentions. */
  function ByKeyword(name: string, groups: seq<Keywords>, lower: char -> char): string {
    if groups == [] then UNCLASSIFIED
    else if Mentions(name, groups[0].words, lower) then groups[0].category
    else ByKeyword(name, groups[1..], lower)
  }

  /** The user's rule for the name, or what the groups of keywords say. */
  function CategoryOf(merchant: string, rules: map<string, string>, groups: seq<Keywords>, lower: char -> char)
    : string
  {
    var name := Normalize(merchant, lower);
    if name in rules && rules[name] != "" then rules[name] else ByKeyword(name, groups, lower)
  }

  lemma NextGroup(name: string, g: nat, lower: char -> char)
    requires g < |KEYWORDS|
    ensures ByKeyword(name, KEYWORDS[g..], lower)
         == if Mentions(name, KEYWORDS[g].words, lower) then KEYWORDS[g].category
            else ByKeyword(name, KEYWORDS[g + 1..], lower)
  {
    var groups := KEYWORDS[g..];
    assert groups[0] == KEYWORDS[g] && groups[1..] == KEYWORDS[g + 1..];
  }

  /** The categories by name: the first that applies, from group to group. */
  lemma FirstKeywords(name: string, lower: char -> char)
    ensures ByKeyword(name, KEYWORDS, lower)
         == if Mentions(name, ["居酒屋", "bar", "ビール", "ワイン", "鳥貴族"], lower)
            then "酒・飲み会"
            else if Mentions(name, ["netflix", "spotify", "apple.com/bill", "subscription"], lower)
            then "サブスクリプション"
            else if Mentions(name, ["コンビニ", "セブン", "lawson", "ローソン", "ファミリーマート"], lower)
            then "コンビニ"
            else ByKeyword(name, KEYWORDS[3..], lower)
  {
    assert KEYWORDS[0..] == KEYWORDS;
    NextGroup(name, 0, lower);
    NextGroup(name, 1, lower);
    NextGroup(name, 2, lower);
  }

  lemma TravelKeywords(name: string, lower: char -> char)
    ensures ByKeyword(name, KEYWORDS[3..], lower)
         == if Mentions(name, ["タクシー", "taxi", "uber trip", "go taxi"], lower)
            then "タクシー"
            else if Mentions(name, ["jr", "suica", "pasmo", "鉄道", "交通"], lower)
            then "交通"
            else if Mentions(name, ["書籍", "book", "udemy", "技術書"], lower)
            then "学習"
            else ByKeyword(name, KEYWORDS[6..], lower)
  {
    NextGroup(name, 3, lower);
    NextGroup(name, 4, lower);
    NextGroup(name, 5, lower);
  }

  lemma MealKeywords(name: string, lower: char -> char)
    ensures ByKeyword(name, KEYWORDS[6..], lower)
         == if Mentions(name, ["病院", "クリニック", "薬局", "ジム"], lower)
            then "健康"
            else if Mentions(name, ["レストラン", "食堂", "カフェ", "cafe", "restaurant"], lower)
            then "外食"
            else if Mentions(name, ["スーパー", "market", "食品"], lower)
            then "食費"
            else ByKeyword(name, KEYWORDS[9..], lower)
  {
    NextGroup(name, 6, lower);
    NextGroup(name, 7, lower);
    NextGroup(name, 8, lower);
  }

  lemma LastKeywords(name: string, lower: char -> char)
    ensures ByKeyword(name, KEYWORDS[9..], lower)
         == if Mentions(name, ["amazon", "楽天", "百貨店"], lower)
            then "買い物"
            else if Mentions(name, ["映画", "cinema", "ゲーム"], lower)
            then "娯楽"
            else "未分類"
  {
    NextGroup(name, 9, lower);
    NextGroup(name, 10, lower);
    assert KEYWORDS[11..] == [];
  }

  /** Naming a word is having it in the name, small letters for capitals. */
  lemma MentionsIff(name: string, words: seq<string>, lower: char -> char)
    ensures Mentions(name, words, lower) <==>
              exists i, a, b :: 0 <= i < |words| && name == a + Lowered(words[i], lower) + b
  {
    forall i | 0 <= i < |words|
      ensures Contains(name, Lowered(words[i], lower)) <==> exists a, b :: name == a + Lowered(words[i], lower) + b
    {
      ContainsIff(name, Lowered(words[i], lower));
    }
  }

  method Categorize(merchant: string, rules: map<string, string>, lower: char -> char) returns (category: string)
    ensures category == CategoryOf(merchant, rules, KEYWORDS, lower)
  {
    var name := Normalize(merchant, lower);
    if name in rules && rules[name] != "" {
      return rules[name];
    }
    category := FirstMention(name, KEYWORDS, lower);
  }

  /** The two nested loops over the keywords. */
  method FirstMention(name: string, groups: seq<Keywords>, lower: char -> char) returns (category: string)
    ensures category == ByKeyword(name, groups, lower)
  {
    for g := 0 to |groups|
      invariant ByKeyword(name, groups, lower) == ByKeyword(name, groups[g..], lower)
    {
      for w := 0 to |groups[g].words|
        invariant forall i :: 0 <= i < w ==> !Contains(name, Lowered(groups[g].words[i], lower))
      {
        if Contains(name, Lowered(groups[g].words[w], lower)) {
          return groups[g].category;
        }
      }
      assert !Mentions(name, groups[g].words, lower);
    }
    return UNCLASSIFIED;
  }

  /** The category a new row of this description is imported with. */
  function Imported(description: string, rules: map<string, string>, groups: seq<Keywords>, lower: char -> char)
    : string
  {
    CategoryOf(Normalize(description, lower), rules, groups, lower)
  }

  predicate Numbered(name: string) {
    name != "" && Tail(name[|name| - 1])
  }

  /** A correction that the user wants remembered is stored under the row's normalized name,
      but looked up under that name normalized again.  So it is for the next row of the same
      description exactly when the name is not still numbered, unless another rule or a
      keyword happens to say the same. */
  lemma RememberedRuleIsFound(description: string, rules: map<string, string>, category: string,
                              groups: seq<Keywords>, lower: char -> char)
    requires LowerCase(lower) && category != ""
    ensures
      var name := Normalize(description, lower);
      Imported(description, rules[name := category], groups, lower)
      == if Numbered(name) then Imported(description, rules - {name}, groups, lower) else category
  {
    NormalizedTwice(description, lower);
  }

  /** A number behind a word and a space. */
  lemma NumberAtEnd(s: string, lower: char -> char)
    requires Tidy(s) && Settled(s, lower) && |s| >= 3
    requires
      var n := |s| - 1;
      Tail(s[n]) && s[n - 1] == ' ' && s[n - 2] != '店' && s[n - 2] != '舗'
    ensures Normalize(s, lower) == s[..|s| - 2]
  {
    var n := |s| - 1;
    assert !IsSpace(s[n - 2]);
    assert Back(s, n + 1, Tail) == n;
    assert Back(s, n, Gap) == n - 1;
    assert BranchLength(s, n - 1) == 0;
    assert !WideGap(s[n - 2]);
    assert Start(s) == n - 1;
    NormalizeTidy(s, lower);
    TrimmedPrefix(s, n - 1);
    var p := s[..n - 1];
    assert !IsSpace(p[0]) && !IsSpace(p[|p| - 1]);
  }

  lemma NamesAreTidy()
    ensures Tidy("a 1") && Tidy("a 1 2")
  {
    assert !IsSpace('a') && !IsSpace('1') && !IsSpace('2');
  }

  /** The name "a 1 2" loses one number and then another, since its characters are in lower
      case already. */
  lemma TwoNumbers(lower: char -> char)
    requires Settled("a 1 2", lower)
    ensures Normalize("a 1 2", lower) == "a 1" && Normalize("a 1", lower) == "a"
  {
    var one, two := "a 1", "a 1 2";
    assert two[..3] == one && one[..1] == "a";
    assert Settled(one, lower) by {
      assert forall i :: 0 <= i < 3 ==> one[i] == two[i];
    }
    NamesAreTidy();
    NumberAtEnd(one, lower);
    NumberAtEnd(two, lower);
  }
}
