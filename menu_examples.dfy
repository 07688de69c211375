/** Worked instances of the menu tags' behaviour, stated on concrete inputs. */
module MenuExamples {
  import opened Wrappers
  import opened MenuTags

  /** Of "/a/" and "/a/b/", the reference "/a/b/c/" is best matched by
      "/a/b/", which leaves the shorter remainder "c/". */
  lemma LongerPrefixWins()
    ensures BestMatch(["/a/", "/a/b/"], "/a/b/c/").matched == Some(1)
  {
  }

  /** Two links rendering to the same url: the first in menu order wins. */
  lemma FirstOfEqualUrlsWins()
    ensures BestMatch(["/x/", "/x/"], "/x/").matched == Some(0)
  {
  }

  /** A link requiring two permissions is refused to a non-staff viewer
      holding one of them and granted to one holding both. */
  lemma BothPermissionsRequired()
    ensures !Authorized(User(false, false, true, ["p1"]), LinkRecord(7, "t", "d", "/u/", false, false, ["p1", "p2"]))
    ensures Authorized(User(false, false, true, ["p2", "p1"]), LinkRecord(7, "t", "d", "/u/", false, false, ["p1", "p2"]))
  {
    assert "p2" in ["p1", "p2"];
  }
}
