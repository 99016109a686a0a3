/** The cached entities (the `TL_user`, `TL_chat` and `TL_channel` fields the
    client reads) and the display name of a user. */
module Entities {
  import opened Base
  import opened Decimal
  import opened Text

  datatype User = User(
    id: Int32,
    accessHash: Int64,
    firstName: string,
    lastName: string,
    username: string,
    phone: string)

  datatype Chat = Chat(id: Int32, title: string)

  datatype Channel = Channel(id: Int32, accessHash: Int64, title: string)

  /** Go's zero values: what a failed map lookup or a failed comma-ok type
      assertion yields. */
  const ZeroUser := User(0, 0, "", "", "", "")
  const ZeroChat := Chat(0, "")
  const ZeroChannel := Channel(0, 0, "")

  /** `nickname`: `<id> <first> <last>`, or `<id> <first> @<username> <last>`
      when the user has a username. */
  function Nickname(u: User): (r: string)
    ensures var lead := Itoa(u.id) + " " + u.firstName + " ";
      |r| >= |lead| + |u.lastName| && r[..|lead|] == lead
    ensures |r| > |u.lastName| && r[|r| - |u.lastName| - 1..] == " " + u.lastName
    ensures u.username == "" ==> |r| == |Itoa(u.id)| + |u.firstName| + |u.lastName| + 2
    ensures u.username != "" ==> |r| == |Itoa(u.id)| + |u.firstName| + |u.username| + |u.lastName| + 4
  {
    if u.username == "" then
      Itoa(u.id) + " " + u.firstName + " " + u.lastName
    else
      Itoa(u.id) + " " + u.firstName + " @" + u.username + " " + u.lastName
  }

  /** The username form is the plain form with `@<username> ` inserted right
      after the first name. */
  lemma NicknameInsertsHandle(u: User)
    requires u.username != ""
    ensures var plain := Nickname(u.(username := ""));
      var cut := |Itoa(u.id)| + |u.firstName| + 2;
      cut <= |plain| && Nickname(u) == plain[..cut] + "@" + u.username + " " + plain[cut..]
  {
    var plain := Nickname(u.(username := ""));
    var lead := Itoa(u.id) + " " + u.firstName + " ";
    assert plain == lead + u.lastName;
    assert plain[..|lead|] == lead && plain[|lead|..] == u.lastName;
  }

  /** The name shown for a user is a function of its id, first name, username
      and last name alone: the phone number and access hash never show. */
  lemma NicknameIgnoresPhoneAndHash(u: User, v: User)
    requires u.id == v.id && u.firstName == v.firstName
    requires u.username == v.username && u.lastName == v.lastName
    ensures Nickname(u) == Nickname(v)
  {
  }

  /** The id can be read back from a nickname: it is everything before the
      first space, and it parses to the user's id. */
  lemma NicknameLeadsWithId(u: User)
    ensures SplitOnce(Nickname(u), ' ').0 == Itoa(u.id)
    ensures Atoi(SplitOnce(Nickname(u), ' ').0) == Some(u.id)
  {
    var id := Itoa(u.id);
    var rest := if u.username == "" then u.firstName + " " + u.lastName
      else u.firstName + " @" + u.username + " " + u.lastName;
    assert Nickname(u) == id + [' '] + rest;
    SplitAtFirst(id, rest, ' ');
    AtoiItoa(u.id);
  }
}
