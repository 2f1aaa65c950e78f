/** The saved-repository list of repository.js: the repository-management menu and
    the repository selection that precedes every pull request operation. */
module Repository {
  import opened Wrappers
  import opened Lists

  /** The value of the extra "Add New Repository" choice of the selection prompt. */
  const AddNew := "addNew"

  /** One answer to the repository-management menu, with the name the follow-up
      prompt asks for when there is one. */
  datatype MenuAction =
    | ListRepositories
    | AddRepository(name: string)
    | RemoveRepository(name: string)
    | GoBack

  /** A menu session as the operator answers it: it ends with "Go Back", and every
      name added passes the prompt's check (non-empty). */
  predicate MenuSession(actions: seq<MenuAction>) {
    && actions != []
    && (actions[0].AddRepository? ==> actions[0].name != "")
    && (!actions[0].GoBack? ==> MenuSession(actions[1..]))
  }

  /** The outcome of a menu session started on `repos`: the final list, and the list
      as each saveConfig call wrote it, in order. */
  datatype MenuResult = MenuResult(repos: seq<string>, saves: seq<seq<string>>)

  function Menu(repos: seq<string>, actions: seq<MenuAction>): MenuResult
    requires MenuSession(actions)
    decreases |actions|
  {
    match actions[0]
    case GoBack => MenuResult(repos, [])
    case ListRepositories => Menu(repos, actions[1..])
    case AddRepository(name) =>
      var rest := Menu(repos + [name], actions[1..]);
      MenuResult(rest.repos, [repos + [name]] + rest.saves)
    case RemoveRepository(name) =>
      if repos == [] then Menu(repos, actions[1..])
      else
        var rest := Menu(Without(repos, name), actions[1..]);
        MenuResult(rest.repos, [Without(repos, name)] + rest.saves)
  }

  /** The file always ends up holding the list the session ends with: every change
      is saved, and a session that saves nothing changes nothing. */
  lemma {:induction false} MenuPersistsFinalList(repos: seq<string>, actions: seq<MenuAction>)
    requires MenuSession(actions)
    ensures var r := Menu(repos, actions);
      if r.saves == [] then r.repos == repos else r.saves[|r.saves| - 1] == r.repos
    decreases |actions|
  {
    match actions[0]
    case GoBack =>
    case ListRepositories => MenuPersistsFinalList(repos, actions[1..]);
    case AddRepository(name) => MenuPersistsFinalList(repos + [name], actions[1..]);
    case RemoveRepository(name) =>
      if repos == [] {
        MenuPersistsFinalList(repos, actions[1..]);
      } else {
        MenuPersistsFinalList(Without(repos, name), actions[1..]);
      }
  }

  /** The number of menu answers that change the list and are saved: every add, and
      every remove while the list is non-empty. */
  function Edits(repos: seq<string>, actions: seq<MenuAction>): nat
    requires MenuSession(actions)
    decreases |actions|
  {
    match actions[0]
    case GoBack => 0
    case ListRepositories => Edits(repos, actions[1..])
    case AddRepository(name) => 1 + Edits(repos + [name], actions[1..])
    case RemoveRepository(name) =>
      if repos == [] then Edits(repos, actions[1..]) else 1 + Edits(Without(repos, name), actions[1..])
  }

  /** saveConfig runs once per add or remove and never for list or back. */
  lemma {:induction false} MenuSavesPerEdit(repos: seq<string>, actions: seq<MenuAction>)
    requires MenuSession(actions)
    ensures |Menu(repos, actions).saves| == Edits(repos, actions)
    decreases |actions|
  {
    match actions[0]
    case GoBack =>
    case ListRepositories => MenuSavesPerEdit(repos, actions[1..]);
    case AddRepository(name) => MenuSavesPerEdit(repos + [name], actions[1..]);
    case RemoveRepository(name) =>
      if repos == [] {
        MenuSavesPerEdit(repos, actions[1..]);
      } else {
        MenuSavesPerEdit(Without(repos, name), actions[1..]);
      }
  }

  /** Adding does not check for duplicates: the name gains one more copy. Removing
      that name afterwards takes out every copy, the older ones included. */
  lemma AddThenRemove(repos: seq<string>, name: string)
    ensures multiset(repos + [name])[name] == multiset(repos)[name] + 1
    ensures Without(repos + [name], name) == Without(repos, name)
  {
    WithoutAppend(repos, [name], name);
    assert Without([name], name) == [];
  }

  /** The configuration object as far as repository.js uses it. */
  class Config {
    /** `config.repos`; `None` while the key is absent. */
    var repos: Option<seq<string>>
    /** `config.repos` as each saveConfig call wrote it, oldest first. */
    var persisted: seq<seq<string>>

    constructor (repos: Option<seq<string>>)
      ensures this.repos == repos && persisted == []
    {
      this.repos := repos;
      persisted := [];
    }

    /** The saved repositories; an absent list reads as empty. */
    function Repos(): seq<string>
      reads this
    {
      repos.GetOr([])
    }

    /** saveConfig: writes the configuration, with its current list. */
    method SaveConfig()
      modifies this`persisted
      ensures persisted == old(persisted) + [Repos()]
    {
      persisted := persisted + [Repos()];
    }

    /** `config.repos.push(name)` followed by saveConfig. */
    method AddRepository(name: string)
      requires repos.Some?
      modifies this
      ensures repos == Some(old(Repos()) + [name])
      ensures persisted == old(persisted) + [Repos()]
    {
      repos := Some(repos.value + [name]);
      SaveConfig();
    }

    /** manageRepositories: one menu answer per round, repeated until "Go Back". It
        returns nothing on every path. */
    method ManageRepositories(actions: seq<MenuAction>)
      requires MenuSession(actions)
      modifies this
      ensures repos == Some(Menu(old(Repos()), actions).repos)
      ensures persisted == old(persisted) + Menu(old(Repos()), actions).saves
      decreases |actions|
    {
      if repos.None? {
        repos := Some([]);
      }
      var action := actions[0];
      // "list" only prints the list.
      if action.AddRepository? {
        AddRepository(action.name);
      }
      if action.RemoveRepository? {
        if |repos.value| == 0 {
          // "No repositories saved."
        } else {
          repos := Some(Without(repos.value, action.name));
          SaveConfig();
        }
      }
      if !action.GoBack? {
        ManageRepositories(actions[1..]);
      }
    }

    /** preCheckRepository: with saved repositories, the operator picks one or
        "addNew" and enters a new name, which is appended and saved; without, the
        management menu runs and its result, `undefined`, is returned. */
    method PreCheckRepository(selected: string, newRepo: string, menu: seq<MenuAction>)
      returns (repo: Option<string>)
      requires Repos() != [] ==> (selected in Repos() || selected == AddNew)
      requires Repos() != [] && selected == AddNew ==> newRepo != ""
      requires Repos() == [] ==> MenuSession(menu)
      modifies this
      ensures old(Repos()) != [] && selected == AddNew ==>
        && repo == Some(newRepo)
        && Repos() == old(Repos()) + [newRepo]
        && persisted == old(persisted) + [Repos()]
      ensures old(Repos()) != [] && selected != AddNew ==>
        repo == Some(selected) && repos == old(repos) && persisted == old(persisted)
      ensures old(Repos()) != [] ==> repo.Some? && repo.value in Repos()
      ensures old(Repos()) == [] ==>
        && repo == None
        && repos == Some(Menu([], menu).repos)
        && persisted == old(persisted) + Menu([], menu).saves
    {
      if repos.Some? && |repos.value| > 0 {
        if selected == AddNew {
          AddRepository(newRepo);
          repo := Some(newRepo);
        } else {
          repo := Some(selected);
        }
      } else {
        ManageRepositories(menu);
        repo := None;
      }
    }
  }
}
