/**
 * The state of the leaderboard screen and its event handlers: the initial
 * user fetch, the two form controls, the claim and add-user buttons, the
 * `leaderboardUpdate` subscription and the confetti completion callback.
 * Each handler is one method; network results arrive as parameters and the
 * requests the handlers would send are returned.
 */
module AppState {
  import opened Types
  import opened JsString
  import LeaderTracker

  class App {
    var users: seq<User>
    var selectedUser: string
    var leaderboard: seq<Entry>
    var newUserName: string
    var showConfetti: bool
    var leaderId: Option<string>

    /** The part of the state the leader tracker owns. */
    function Tracker(): LeaderTracker.Tracker
      reads this
    {
      LeaderTracker.Tracker(leaderId, showConfetti, leaderboard)
    }

    /** The selection is empty or names a user of the directory. */
    ghost predicate SelectionValid()
      reads this
    {
      selectedUser == "" || exists k :: 0 <= k < |users| && users[k].id == selectedUser
    }

    /** The state at mount: every list empty, nothing selected or typed, no leader, no confetti. */
    constructor ()
      ensures users == [] && selectedUser == "" && newUserName == ""
      ensures Tracker() == LeaderTracker.Initial
      ensures SelectionValid()
    {
      users := [];
      selectedUser := "";
      leaderboard := [];
      newUserName := "";
      showConfetti := false;
      leaderId := None;
    }

    /**
     * Completion of `GET /api/users`: on success the directory is replaced and,
     * when it is non-empty, its first user becomes the selection; a failure
     * changes nothing.
     */
    method UsersLoaded(response: Response<seq<User>>)
      modifies this`users, this`selectedUser
      ensures response.Failed? ==> users == old(users) && selectedUser == old(selectedUser)
      ensures response.Ok? ==> users == response.body
      ensures response.Ok? && |response.body| > 0 ==> selectedUser == response.body[0].id && SelectionValid()
      ensures response.Ok? && |response.body| == 0 ==> selectedUser == old(selectedUser)
    {
      if response.Ok? {
        var data := response.body;
        users := data;
        if |data| > 0 {
          selectedUser := data[0].id;
          assert users[0].id == selectedUser;
        }
      }
    }

    /**
     * The user selector's `onChange`. The chosen value is the id of one of the
     * options, which are the users of the directory.
     */
    method SelectUser(id: string)
      requires exists k :: 0 <= k < |users| && users[k].id == id
      modifies this`selectedUser
      ensures selectedUser == id
      ensures SelectionValid()
    {
      selectedUser := id;
      ghost var k :| 0 <= k < |users| && users[k].id == id;
      assert users[k].id == selectedUser;
    }

    /** The name input's `onChange`. */
    method EditNewUserName(text: string)
      modifies this`newUserName
      ensures newUserName == text
    {
      newUserName := text;
    }

    /**
     * The claim button: the user id `POST /api/claim` is sent for, or None when
     * nothing is selected. The state is left alone; the points change
     * arrives later through the live channel.
     */
    method ClaimPoints() returns (request: Option<string>)
      ensures request.Some? <==> Truthy(selectedUser)
      ensures request.Some? ==> request.value == selectedUser
    {
      if !Truthy(selectedUser) {
        return None;
      }
      request := Some(selectedUser);
    }

    /**
     * The add-user form's submit, together with the settlement of the request
     * it sends. A name that trims to nothing sends no request. Otherwise the
     * name, untrimmed, is posted; a created user is appended to the directory
     * and the input cleared, and a rejection (a duplicate name, say) changes
     * nothing.
     */
    method AddUser(response: Response<User>) returns (request: Option<string>)
      modifies this`users, this`newUserName
      ensures request.None? <==> IsBlank(old(newUserName))
      ensures request.Some? ==> request.value == old(newUserName)
      ensures request.Some? && response.Ok? ==> users == old(users) + [response.body] && newUserName == ""
      ensures request.None? || response.Failed? ==> users == old(users) && newUserName == old(newUserName)
      ensures old(SelectionValid()) ==> SelectionValid()
    {
      if Trim(newUserName) == "" {
        return None;
      }
      request := Some(newUserName);
      if response.Ok? {
        ghost var before := users;
        users := users + [response.body];
        newUserName := "";
        assert forall k :: 0 <= k < |before| ==> users[k] == before[k];
      }
    }

    /** A `leaderboardUpdate` snapshot from the live channel. */
    method OnLeaderboardUpdate(newLeaderboard: seq<Entry>)
      modifies this`leaderId, this`showConfetti, this`leaderboard
      ensures Tracker() == LeaderTracker.Observe(old(Tracker()), newLeaderboard)
    {
      if |newLeaderboard| > 0 {
        var newLeader := newLeaderboard[0];
        if TruthyOption(leaderId) && newLeader.id != leaderId.value {
          showConfetti := true;
        }
        leaderId := Some(newLeader.id);
      }
      leaderboard := newLeaderboard;
    }

    /** The confetti animation's `onConfettiComplete`. */
    method OnConfettiComplete()
      modifies this`showConfetti
      ensures Tracker() == LeaderTracker.Complete(old(Tracker()))
    {
      showConfetti := false;
    }
  }

  /**
   * A session as the screen sees it: the first leader is recorded without
   * confetti, a new leader raises it, an empty snapshot keeps the leader, and
   * the completion callback drops the flag.
   */
  method Session(a: Entry, b: Entry)
    requires a.id == "a" && b.id == "b"
  {
    var app := new App();
    app.OnLeaderboardUpdate([]);
    app.OnLeaderboardUpdate([a]);
    assert !app.showConfetti && app.leaderId == Some("a");
    app.OnLeaderboardUpdate([a, b]);
    assert !app.showConfetti && app.leaderId == Some("a");
    app.OnLeaderboardUpdate([b, a]);
    assert app.showConfetti && app.leaderId == Some("b");
    app.OnLeaderboardUpdate([]);
    assert app.showConfetti && app.leaderId == Some("b") && app.leaderboard == [];
    app.OnConfettiComplete();
    assert !app.showConfetti && app.leaderId == Some("b");
  }
}
