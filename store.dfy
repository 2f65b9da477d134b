/**
 * The server's persistent state as the core sees it: registered accounts
 * and the `ChatMessage` table in insertion order, and the names of the
 * uploaded files.
 */
module Store {
  import opened Wire

  /** A stored chat message; `at` is its creation instant in local seconds. */
  datatype Row = Row(username: string, message: Value, msgType: Value, mediaUrl: Value, at: int)

  class Database {
    var accounts: map<string, string>   // username to password (hashing is not modelled)
    var messages: seq<Row>              // the message table, oldest insertion first

    constructor ()
      ensures accounts == map[] && messages == []
    {
      accounts := map[];
      messages := [];
    }

    /** `User.objects.create_user`, given the name it stores (already normalised). */
    method CreateUser(username: string, password: string)
      modifies this`accounts
      ensures accounts == old(accounts)[username := password]
    {
      accounts := accounts[username := password];
    }

    /** `ChatMessage.objects.create`. */
    method Insert(row: Row)
      modifies this`messages
      ensures messages == old(messages) + [row]
    {
      messages := messages + [row];
    }
  }

  /** Some name in `names` is not stored yet. */
  predicate HasFree(names: seq<string>, files: set<string>) {
    exists i :: 0 <= i < |names| && names[i] !in files
  }

  /** The first name in `names` that is not stored yet. */
  function FirstFree(names: seq<string>, files: set<string>): (n: string)
    requires HasFree(names, files)
    ensures n !in files
    ensures exists k :: 0 <= k < |names| && names[k] == n && forall j :: 0 <= j < k ==> names[j] in files
  {
    if names[0] !in files then names[0]
    else
      assert HasFree(names[1..], files) by {
        var i :| 0 <= i < |names| && names[i] !in files;
        assert names[1..][i - 1] == names[i];
      }
      var n := FirstFree(names[1..], files);
      ghost var k :| 0 <= k < |names[1..]| && names[1..][k] == n && forall j :: 0 <= j < k ==> names[1..][j] in files;
      assert names[k + 1] == n && forall j :: 0 <= j < k + 1 ==> names[j] in files by {
        forall j | 0 <= j < k + 1 ensures names[j] in files {
          if j > 0 { assert names[j] == names[1..][j - 1]; }
        }
      }
      n
  }

  /**
   * The media storage (`default_storage`, a file system storage): the names
   * of the files it holds.
   */
  class Storage {
    var files: set<string>

    constructor ()
      ensures files == {}
    {
      files := {};
    }

    /**
     * `save`: store a file under `requested` or, while that name is taken,
     * under the next of the alternates `tries` (the names the storage
     * draws by appending a random suffix), and answer the name used.
     */
    method Save(requested: string, tries: seq<string>) returns (saved: string)
      requires HasFree([requested] + tries, files)
      modifies this`files
      ensures saved == FirstFree([requested] + tries, old(files))
      ensures saved !in old(files)
      ensures saved == requested <==> requested !in old(files)
      ensures files == old(files) + {saved}
    {
      var names, taken := [requested] + tries, files;
      var i := 0;
      while names[i] in taken
        invariant 0 <= i < |names|
        invariant HasFree(names[i..], taken) && FirstFree(names[i..], taken) == FirstFree(names, taken)
        decreases |names| - i
      {
        FreeTail(names[i..], taken);
        assert names[i..][1..] == names[i + 1..];
        i := i + 1;
      }
      assert names[i..][0] == names[i];
      saved := names[i];
      files := taken + {saved};
    }
  }

  /** Skipping a taken head keeps the first free name. */
  lemma FreeTail(names: seq<string>, files: set<string>)
    requires HasFree(names, files) && names[0] in files
    ensures HasFree(names[1..], files) && FirstFree(names[1..], files) == FirstFree(names, files)
  {
  }
}
