/**
  Account discovery: the entries of the accounts directory that match the
  glob `*.muttrc`, each turned into its stem, which is the channel name
  given to the sync tool. The directory listing is an input (a missing
  directory lists nothing); names arrive in listing order and that order is
  kept.
*/
module Discovery {

  const EXTENSION := ".muttrc"

  /** The glob `*.muttrc` on one entry name: `*` takes any prefix, the empty one and one starting with a dot included. */
  predicate IsDescriptor(name: string) {
    |name| >= |EXTENSION| && name[|name| - |EXTENSION|..] == EXTENSION
  }

  /** str.rfind: the last index holding c, or -1. */
  function RFind(s: string, c: char): (r: int)
    ensures -1 <= r < |s|
    ensures r >= 0 ==> s[r] == c && forall j :: r < j < |s| ==> s[j] != c
    ensures r == -1 ==> forall j :: 0 <= j < |s| ==> s[j] != c
  {
    if |s| == 0 then -1
    else if s[|s| - 1] == c then |s| - 1
    else RFind(s[..|s| - 1], c)
  }

  /**
    pathlib's stem: the name without its last suffix, where a suffix is a
    dot that is neither the first nor the last character, and what follows it.
  */
  function Stem(name: string): (stem: string)
    ensures |stem| <= |name| && stem == name[..|stem|]
  {
    var i := RFind(name, '.');
    if 0 < i < |name| - 1 then name[..i] else name
  }

  /**
    The stem of a descriptor is its name without `.muttrc`, except for the
    bare name `.muttrc`, whose leading dot is not a suffix: its stem is the
    whole name.
  */
  lemma DescriptorStem(name: string)
    requires IsDescriptor(name)
    ensures Stem(name) == if |name| == |EXTENSION| then name else name[..|name| - |EXTENSION|]
  {
    var dot := |name| - |EXTENSION|;
    assert name[dot..][0] == name[dot] == '.';
    forall j | dot < j < |name| ensures name[j] != '.' {
      assert name[j] == name[dot..][j - dot] == EXTENSION[j - dot];
    }
    assert RFind(name, '.') == dot;
  }

  /** Adding `.muttrc` back to the stem of a descriptor gives the descriptor again. */
  lemma StemRoundTrip(name: string)
    requires IsDescriptor(name) && name != EXTENSION
    ensures Stem(name) + EXTENSION == name
  {
    DescriptorStem(name);
    assert name == name[..|name| - |EXTENSION|] + name[|name| - |EXTENSION|..];
  }

  /** The two descriptors `.muttrc` and `.muttrc.muttrc` have the same stem. */
  lemma StemsCanCollide()
    ensures IsDescriptor(".muttrc") && IsDescriptor(".muttrc.muttrc")
    ensures Stem(".muttrc") == Stem(".muttrc.muttrc") == ".muttrc"
    ensures Discover([".muttrc", ".muttrc.muttrc"]) == [".muttrc", ".muttrc"]
  {
    DescriptorStem(".muttrc");
    DescriptorStem(".muttrc.muttrc");
    assert ".muttrc.muttrc"[..7] == ".muttrc";
    assert [".muttrc", ".muttrc.muttrc"][..1] == [".muttrc"];
  }

  /** The stems of the matching entries, in listing order. */
  function Discover(names: seq<string>): (accounts: seq<string>)
    ensures |accounts| <= |names|
  {
    if names == [] then []
    else
      var last := names[|names| - 1];
      Discover(names[..|names| - 1]) + (if IsDescriptor(last) then [Stem(last)] else [])
  }

  /** The positions of the listing that hold descriptors. */
  ghost function DescriptorPositions(names: seq<string>): set<nat> {
    set i: nat | i < |names| && IsDescriptor(names[i])
  }

  /** Every account is the stem of some descriptor, and every descriptor contributes its stem. */
  lemma {:induction false} DiscoverMembers(names: seq<string>, account: string)
    ensures account in Discover(names) <==>
              exists i :: 0 <= i < |names| && IsDescriptor(names[i]) && Stem(names[i]) == account
  {
    if names != [] {
      var n := |names| - 1;
      var init := names[..n];
      var tail := if IsDescriptor(names[n]) then [Stem(names[n])] else [];
      DiscoverMembers(init, account);
      assert Discover(names) == Discover(init) + tail;
      assert forall i :: 0 <= i < n ==> init[i] == names[i];
    }
  }

  /** The descriptor positions of a listing: those of all but its last entry, and the last one if it is a descriptor. */
  lemma DescriptorPositionsSnoc(names: seq<string>)
    requires names != []
    ensures var n := |names| - 1;
            && n !in DescriptorPositions(names[..n])
            && DescriptorPositions(names) ==
               DescriptorPositions(names[..n]) + (if IsDescriptor(names[n]) then {n} else {})
  {
  }

  /** One account per descriptor: as many accounts as descriptor entries. */
  lemma {:induction false} DiscoverCount(names: seq<string>)
    ensures |Discover(names)| == |DescriptorPositions(names)|
  {
    if names == [] {
      assert DescriptorPositions(names) == {};
    } else {
      var n := |names| - 1;
      DiscoverCount(names[..n]);
      DescriptorPositionsSnoc(names);
    }
  }

  /** Discovery over two parts of a listing is discovery of each part, in order. */
  lemma {:induction false} DiscoverAppend(a: seq<string>, b: seq<string>)
    ensures Discover(a + b) == Discover(a) + Discover(b)
  {
    if b != [] {
      var n := |b| - 1;
      assert (a + b)[..|a + b| - 1] == a + b[..n];
      DiscoverAppend(a, b[..n]);
    } else {
      assert a + b == a;
    }
  }

  /** A directory with no entries, or none matching, gives no accounts. */
  lemma NothingToDiscover(names: seq<string>)
    requires forall i :: 0 <= i < |names| ==> !IsDescriptor(names[i])
    ensures Discover(names) == []
  {
    if Discover(names) != [] {
      DiscoverMembers(names, Discover(names)[0]);
    }
  }

  /** `work.muttrc` and `personal.muttrc` give the accounts `work` and `personal`; other files give nothing. */
  lemma WorkAndPersonal()
    ensures Discover(["work.muttrc", "notes.txt", "personal.muttrc"]) == ["work", "personal"]
  {
    var names := ["work.muttrc", "notes.txt", "personal.muttrc"];
    DescriptorStem("work.muttrc");
    DescriptorStem("personal.muttrc");
    assert names[..2][..1] == ["work.muttrc"];
    assert names[..2] == ["work.muttrc", "notes.txt"];
    assert "work.muttrc"[..4] == "work";
    assert "personal.muttrc"[..8] == "personal";
  }
}
