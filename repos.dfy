/** Gathering the repositories of every tracked organization. The listing of
    one organization's repositories is a network call outside this model; it
    is the parameter `repositoriesOf`. */
module Repos {

  /** The tracked organizations, in the order they are visited. */
  const ORGANIZATIONS: seq<string> := ["rust-lang", "rust-lang-nursery", "rust-lang-deprecated"]

  /** The repositories of `orgs`, organization after organization, each
      organization's list in the order it was listed. */
  function Flatten(orgs: seq<string>, repositoriesOf: string -> seq<string>): (r: seq<string>) {
    if |orgs| == 0 then []
    else Flatten(orgs[..|orgs| - 1], repositoriesOf) + repositoriesOf(orgs[|orgs| - 1])
  }

  /** The number of repositories listed for `orgs`, summed per organization. */
  function RepoCount(orgs: seq<string>, repositoriesOf: string -> seq<string>): (n: nat) {
    if |orgs| == 0 then 0
    else RepoCount(orgs[..|orgs| - 1], repositoriesOf) + |repositoriesOf(orgs[|orgs| - 1])|
  }

  /** How many times `repo` is listed across `orgs`, summed per organization. */
  function Occurrences(orgs: seq<string>, repositoriesOf: string -> seq<string>, repo: string): (n: nat) {
    if |orgs| == 0 then 0
    else Occurrences(orgs[..|orgs| - 1], repositoriesOf, repo) + multiset(repositoriesOf(orgs[|orgs| - 1]))[repo]
  }

  /** Collects the repositories of all tracked organizations, appending each
      organization's list in turn. */
  method GetAllRepos(repositoriesOf: string -> seq<string>) returns (repos: seq<string>)
    ensures repos == Flatten(ORGANIZATIONS, repositoriesOf)
  {
    repos := [];
    for i := 0 to |ORGANIZATIONS|
      invariant repos == Flatten(ORGANIZATIONS[..i], repositoriesOf)
    {
      assert ORGANIZATIONS[..i + 1][..i] == ORGANIZATIONS[..i];
      repos := repos + repositoriesOf(ORGANIZATIONS[i]);
    }
    assert ORGANIZATIONS[..|ORGANIZATIONS|] == ORGANIZATIONS;
  }

  /** The collected list is the three organizations' lists, one after the other. */
  lemma AllReposInOrder(repositoriesOf: string -> seq<string>)
    ensures Flatten(ORGANIZATIONS, repositoriesOf)
         == repositoriesOf("rust-lang") + repositoriesOf("rust-lang-nursery") + repositoriesOf("rust-lang-deprecated")
  {
    var f := repositoriesOf;
    assert ["rust-lang"][..0] == [];
    assert Flatten(["rust-lang"], f) == f("rust-lang");
    assert ["rust-lang", "rust-lang-nursery"][..1] == ["rust-lang"];
    assert Flatten(["rust-lang", "rust-lang-nursery"], f) == f("rust-lang") + f("rust-lang-nursery");
    assert ORGANIZATIONS[..2] == ["rust-lang", "rust-lang-nursery"];
  }

  /** Flattening distributes over concatenation of organization lists. */
  lemma {:induction false} FlattenConcat(a: seq<string>, b: seq<string>, repositoriesOf: string -> seq<string>)
    ensures Flatten(a + b, repositoriesOf) == Flatten(a, repositoriesOf) + Flatten(b, repositoriesOf)
  {
    if |b| == 0 {
      assert a + b == a;
    } else {
      var b' := b[..|b| - 1];
      assert (a + b)[..|a + b| - 1] == a + b';
      FlattenConcat(a, b', repositoriesOf);
    }
  }

  /** The collected list is exactly as long as the per-organization lists
      together: nothing is dropped and nothing is merged. */
  lemma {:induction false} FlattenLength(orgs: seq<string>, repositoriesOf: string -> seq<string>)
    ensures |Flatten(orgs, repositoriesOf)| == RepoCount(orgs, repositoriesOf)
  {
    if |orgs| > 0 {
      FlattenLength(orgs[..|orgs| - 1], repositoriesOf);
    }
  }

  /** Every repository is kept as often as it is listed, summed over the
      organizations: duplicates across organizations are not removed. */
  lemma {:induction false} FlattenKeepsDuplicates(orgs: seq<string>, repositoriesOf: string -> seq<string>, repo: string)
    ensures multiset(Flatten(orgs, repositoriesOf))[repo] == Occurrences(orgs, repositoriesOf, repo)
  {
    if |orgs| > 0 {
      FlattenKeepsDuplicates(orgs[..|orgs| - 1], repositoriesOf, repo);
    }
  }

  /** The list of the organization at position `j` appears whole and in its
      own order in the collected list, right after the lists of the
      organizations before it. */
  lemma FlattenSegment(orgs: seq<string>, repositoriesOf: string -> seq<string>, j: nat)
    requires j < |orgs|
    ensures var start := RepoCount(orgs[..j], repositoriesOf);
            var own := repositoriesOf(orgs[j]);
            start + |own| <= |Flatten(orgs, repositoriesOf)|
            && Flatten(orgs, repositoriesOf)[start..start + |own|] == own
  {
    var before, rest := orgs[..j], orgs[j + 1..];
    assert orgs == before + [orgs[j]] + rest;
    FlattenConcat(before + [orgs[j]], rest, repositoriesOf);
    FlattenConcat(before, [orgs[j]], repositoriesOf);
    assert Flatten([orgs[j]], repositoriesOf) == repositoriesOf(orgs[j]) by {
      assert [orgs[j]][..0] == [];
    }
    FlattenLength(before, repositoriesOf);
  }

  /** An organization without repositories contributes nothing. */
  lemma EmptyOrganizationContributesNothing(a: seq<string>, org: string, b: seq<string>,
                                            repositoriesOf: string -> seq<string>)
    requires repositoriesOf(org) == []
    ensures Flatten(a + [org] + b, repositoriesOf) == Flatten(a + b, repositoriesOf)
  {
    FlattenConcat(a + [org], b, repositoriesOf);
    FlattenConcat(a, b, repositoriesOf);
    assert (a + [org])[..|a|] == a;
  }
}
