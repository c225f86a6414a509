/**
 * The user registry: a create-if-absent insert into a map from user id to
 * wallet address. Generating a key pair and deriving its address is a foreign
 * capability; the derived address arrives as the parameter `generated`.
 */
module Users {
  import opened Wrappers
  import opened Domain

  /** What `createUser` answers, together with the registry afterwards. */
  datatype UserReply = UserReply(result: Result<string, Error>, users: UserStore)

  function CreateUser(users: UserStore, userId: string, generated: string): (r: UserReply)
    ensures r.result == Failure(Conflict) <==> userId in users
    ensures r.result.Failure? ==> r.result.error == Conflict && r.users == users
    ensures r.result.Success? ==>
      && r.users.Keys == users.Keys + {userId}
      && r.users[userId] == r.result.value == generated
      && forall u :: u in users ==> r.users[u] == users[u]
    ensures Extends(users, r.users)
  {
    if userId in users then UserReply(Failure(Conflict), users)
    else UserReply(Success(generated), users[userId := generated])
  }

  /** Registers a sequence of (user id, generated address) pairs in order, ignoring conflicts. */
  function RegisterAll(users: UserStore, requests: seq<(string, string)>): UserStore
    decreases |requests|
  {
    if |requests| == 0 then users
    else RegisterAll(CreateUser(users, requests[0].0, requests[0].1).users, requests[1..])
  }

  /**
   * Whatever registrations follow, a registered user keeps the wallet address
   * it was first given, and the registry holds exactly the ids seen so far.
   */
  lemma {:induction false} RegisterAllKeepsWallets(users: UserStore, requests: seq<(string, string)>)
    ensures Extends(users, RegisterAll(users, requests))
    ensures RegisterAll(users, requests).Keys == users.Keys + set i | 0 <= i < |requests| :: requests[i].0
    decreases |requests|
  {
    if |requests| > 0 {
      var next := CreateUser(users, requests[0].0, requests[0].1).users;
      RegisterAllKeepsWallets(next, requests[1..]);
      ExtendsTransitive(users, next, RegisterAll(next, requests[1..]));
      var rest := set i | 0 <= i < |requests[1..]| :: requests[1..][i].0;
      var all := set i | 0 <= i < |requests| :: requests[i].0;
      assert all == {requests[0].0} + rest by {
        forall u | u in all ensures u in {requests[0].0} + rest {
          var i :| 0 <= i < |requests| && requests[i].0 == u;
          if i > 0 { assert requests[1..][i - 1].0 == u; }
        }
      }
    }
  }
}
