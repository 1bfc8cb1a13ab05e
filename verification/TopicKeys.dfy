/** Routing keys as words, and how a topic exchange matches them. */
module TopicKeys {
  import opened Sequences

  function Words(key: string): (words: seq<string>)
    ensures words != []
  {
    if key == [] then [""]
    else
      var rest := Words(key[1..]);
      if key[0] == '.' then [""] + rest else [[key[0]] + rest[0]] + rest[1..]
  }

  function Join(words: seq<string>): string {
    if words == [] then ""
    else if |words| == 1 then words[0]
    else words[0] + "." + Join(words[1..])
  }

  lemma JoinDot(rest: seq<string>)
    requires rest != []
    ensures Join([""] + rest) == "." + Join(rest)
  {
    assert ([""] + rest)[1..] == rest;
  }

  lemma JoinExtended(c: char, first: string, later: seq<string>)
    ensures Join([[c] + first] + later) == [c] + Join([first] + later)
  {
    assert ([[c] + first] + later)[1..] == later == ([first] + later)[1..];
    if later != [] {
      Assoc([c], first, ".");
      Assoc([c], first + ".", Join(later));
    }
  }

  lemma {:induction false} JoinWords(key: string)
    ensures Join(Words(key)) == key
  {
    if key != [] {
      var rest := Words(key[1..]);
      JoinWords(key[1..]);
      assert key == [key[0]] + key[1..];
      if key[0] == '.' {
        JoinDot(rest);
      } else {
        JoinExtended(key[0], rest[0], rest[1..]);
        assert [rest[0]] + rest[1..] == rest;
      }
    }
  }

  /** `*` stands for one word, `#` for any number of words. */
  predicate Matches(pattern: seq<string>, words: seq<string>)
    decreases |pattern| + |words|
  {
    if pattern == [] then words == []
    else if pattern[0] == "#" then
      Matches(pattern[1..], words) || (words != [] && Matches(pattern, words[1..]))
    else words != [] && (pattern[0] == "*" || pattern[0] == words[0]) && Matches(pattern[1..], words[1..])
  }

  predicate WildcardFree(key: string) {
    "*" !in Words(key) && "#" !in Words(key)
  }

  lemma {:induction false} WildcardFreeMatches(pattern: seq<string>, words: seq<string>)
    requires "*" !in pattern && "#" !in pattern
    ensures Matches(pattern, words) <==> pattern == words
  {
    if pattern != [] && words != [] {
      WildcardFreeMatches(pattern[1..], words[1..]);
      assert pattern == [pattern[0]] + pattern[1..] && words == [words[0]] + words[1..];
    }
  }

  lemma WildcardFreeKeyMatches(bindingKey: string, key: string)
    requires WildcardFree(bindingKey)
    ensures Matches(Words(bindingKey), Words(key)) <==> bindingKey == key
  {
    WildcardFreeMatches(Words(bindingKey), Words(key));
    JoinWords(bindingKey);
    JoinWords(key);
  }
}
