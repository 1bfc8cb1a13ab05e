/** What retention does to an archived conversation. */
module ChatRetention {
  import opened Options
  import opened ChatArchive

  /** The conversation's expiry after its turns' expiries, in archive order. */
  function HeaderExpiry(turns: seq<Option<int>>): Option<int> {
    if turns == [] then None else ConversationExpiry(HeaderExpiry(turns[..|turns| - 1]), turns[|turns| - 1])
  }

  /** The conversation is kept at least as long as each of its messages. */
  ghost predicate Outlives(header: Option<int>, turns: seq<Option<int>>) {
    header.None? || forall i :: 0 <= i < |turns| ==> turns[i].Some? && turns[i].value <= header.value
  }

  lemma {:induction false} FiniteTurnsKeepTheLatest(turns: seq<Option<int>>)
    requires turns != [] && forall i :: 0 <= i < |turns| ==> turns[i].Some?
    ensures HeaderExpiry(turns).Some?
    ensures forall i :: 0 <= i < |turns| ==> turns[i].value <= HeaderExpiry(turns).value
  {
    var n := |turns| - 1;
    if n > 0 {
      FiniteTurnsKeepTheLatest(turns[..n]);
      assert forall i :: 0 <= i < n ==> turns[..n][i] == turns[i];
    }
  }

  /** A conversation outlives its messages exactly when its latest turn is kept indefinitely or all turns expire.  A
      finite turn after an indefinite one dates the conversation again, and it goes before its own messages do. */
  lemma {:induction false} OutlivesExactly(turns: seq<Option<int>>)
    requires turns != []
    ensures Outlives(HeaderExpiry(turns), turns) <==>
      turns[|turns| - 1].None? || forall i :: 0 <= i < |turns| ==> turns[i].Some?
  {
    if forall i :: 0 <= i < |turns| ==> turns[i].Some? {
      FiniteTurnsKeepTheLatest(turns);
    }
  }
}
