/** From a list of changes through the wire and the server to the branch file. */
module Codec {
  import opened Splices
  import opened Words
  import opened Wire
  import opened Branches
  import opened Feed
  import opened Grammar

  /** What `transferencode` makes of a list is one section for branch 1337. */
  lemma BatchIsSection(list: seq<Change>, opens: Word -> bool)
    requires AllFit32(list) && opens(BRANCH)
    ensures Acceptable([Section(BRANCH, Records(list))], opens)
    ensures Payload([Section(BRANCH, Records(list))]) == Batch(list)
  {
    var ss := [Section(BRANCH, Records(list))];
    assert ss[1..] == [];
    assert Payload(ss[1..]) == [];
  }

  /** `feed` accepts every batch a client sends and appends, once and to file
      1337 only, bytes that read back as exactly the list that was sent. */
  lemma CodecRoundTrip(list: seq<Change>, branches: Files, env: Env)
    requires AllFit32(list) && env.opens(BRANCH)
    ensures Answer(Batch(list), branches, env) == Verdict(true, Write(branches, Some(BRANCH), KeptAll(list)))
    ensures var after := Answer(Batch(list), branches, env).files;
      && BRANCH in after && Contents(after, BRANCH) == Contents(branches, BRANCH) + KeptAll(list)
      && forall x: Word {:trigger x in after} :: x != BRANCH ==>
        (x in after <==> x in branches) && (x in branches ==> after[x] == branches[x])
    ensures ReadFile(KeptAll(list)) == Some(list)
  {
    var ss := [Section(BRANCH, Records(list))];
    forall x: Word {
      WriteEffect(branches, Some(BRANCH), KeptAll(list), x);
    }
    BatchIsSection(list, env.opens);
    FeedWritesSections(Batch(list), branches, env, ss);
    assert ss[1..] == [];
    assert WriteAll(branches, ss) == Write(branches, Some(BRANCH), KeptAll(list));
    ReadKeptAll(list);
  }

  /** A file that already holds a list then holds both, in order. */
  lemma FileGrows(past: seq<Change>, list: seq<Change>)
    requires AllFit32(past) && AllFit32(list)
    ensures KeptAll(past) + KeptAll(list) == KeptAll(past + list)
    ensures ReadFile(KeptAll(past) + KeptAll(list)) == Some(past + list)
  {
    KeptAppend(past, list);
    ReadKeptAll(past + list);
  }
}
