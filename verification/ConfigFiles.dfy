/**
 Config files that are opened for writing without truncation (agents/pkgagent.go, agents/oracle.go):
 what a file holds after any number of writes.
 */
module ConfigFiles {
  /** Writing from the start of a file that is not truncated. */
  function Overwrite(content: string, data: string): string {
    data + (if |content| > |data| then content[|data|..] else "")
  }

  function Longest(writes: seq<string>): nat {
    if writes == [] then 0
    else
      var rest := Longest(writes[..|writes| - 1]);
      if |writes[|writes| - 1]| > rest then |writes[|writes| - 1]| else rest
  }

  /** The latest write that reaches position i. */
  function LatestReaching(writes: seq<string>, i: nat): (w: string)
    requires i < Longest(writes)
    ensures w in writes && i < |w|
  {
    var last := writes[|writes| - 1];
    if i < |last| then last else LatestReaching(writes[..|writes| - 1], i)
  }

  /** The file holds, at every position, what the latest write reaching it put there. */
  ghost predicate Layered(content: string, writes: seq<string>) {
    && |content| == Longest(writes)
    && forall i | 0 <= i < |content| :: content[i] == LatestReaching(writes, i)[i]
  }

  lemma OverwriteLayers(content: string, writes: seq<string>, data: string)
    requires Layered(content, writes)
    ensures Layered(Overwrite(content, data), writes + [data])
  {
    assert (writes + [data])[..|writes|] == writes;
  }

  lemma {:induction false} LongestBounds(writes: seq<string>)
    ensures forall w | w in writes :: |w| <= Longest(writes)
    ensures writes != [] ==> exists w :: w in writes && |w| == Longest(writes)
  {
    if writes != [] {
      var front, last := writes[..|writes| - 1], writes[|writes| - 1];
      LongestBounds(front);
      assert forall w | w in writes :: w in front || w == last;
      if Longest(writes) == |last| {
        assert last in writes;
      } else {
        var w :| w in front && |w| == Longest(front);
        assert w in writes;
      }
    }
  }

  /**
   A file is meant to hold exactly the latest encoding. It does if and only if no write since it was
   last absent was longer than the latest.
   */
  lemma HoldsLatestExactlyWhen(content: string, writes: seq<string>)
    requires writes != [] && Layered(content, writes)
    ensures content == writes[|writes| - 1] <==> forall w | w in writes :: |w| <= |writes[|writes| - 1]|
  {
    var last := writes[|writes| - 1];
    LongestBounds(writes);
    if forall w | w in writes :: |w| <= |last| {
      assert last in writes;
      assert |content| == |last|;
    }
  }

  class ConfigDir {
    var files: map<string, string>
    ghost var writes: map<string, seq<string>>   // per file, every write since it was last absent

    ghost predicate Valid()
      reads this
    {
      && files.Keys == writes.Keys
      && forall id | id in files :: writes[id] != [] && Layered(files[id], writes[id])
    }

    constructor ()
      ensures Valid() && files == map[]
    {
      files, writes := map[], map[];
    }

    /** writeConfigFile, once the content has been encoded. */
    method WriteConfigFile(id: string, data: string)
      requires Valid()
      modifies this
      ensures Valid()
      ensures writes == old(writes)[id := (if id in old(writes) then old(writes)[id] else []) + [data]]
      ensures forall other | other in old(files) && other != id :: other in files && files[other] == old(files)[other]
    {
      var content := if id in files then files[id] else "";
      ghost var earlier := if id in writes then writes[id] else [];
      OverwriteLayers(content, earlier, data);
      files, writes := files[id := Overwrite(content, data)], writes[id := earlier + [data]];
    }

    method RemoveConfigFile(id: string) returns (removed: bool)
      requires Valid()
      modifies this
      ensures Valid() && removed == (id in old(files))
      ensures files == old(files) - {id} && writes == old(writes) - {id}
    {
      removed := id in files;
      files, writes := files - {id}, writes - {id};
    }

    method Purge()
      requires Valid()
      modifies this
      ensures Valid() && files == map[]
    {
      files, writes := map[], map[];
    }
  }
}
