/**
 * The project details dialog (src/components/dashboard/project-details-modal.tsx):
 * the member list with its admin test, inviting a member and changing the
 * project's status.
 */
module ProjectDetailsModal {
  import opened Wrappers
  import opened Text

  datatype MemberUser = MemberUser(id: string, name: Option<string>, email: string)

  datatype Member = Member(id: string, role: string, joinedAt: string, user: MemberUser)

  /** `members.some(member => member.user.id === userId && member.role === "admin")` */
  predicate IsAdmin(members: seq<Member>, userId: string)
    decreases |members|
  {
    members != [] && ((members[0].user.id == userId && members[0].role == "admin") || IsAdmin(members[1..], userId))
  }

  predicate AdminAt(members: seq<Member>, userId: string, k: int) {
    0 <= k < |members| && members[k].user.id == userId && members[k].role == "admin"
  }

  /** The user is an admin iff some member entry is that user with the role "admin". */
  lemma {:induction false} IsAdminIff(members: seq<Member>, userId: string)
    ensures IsAdmin(members, userId) <==> exists k :: AdminAt(members, userId, k)
    decreases |members|
  {
    if members != [] {
      IsAdminIff(members[1..], userId);
      if members[0].user.id == userId && members[0].role == "admin" {
        assert AdminAt(members, userId, 0);
      }
      if IsAdmin(members[1..], userId) {
        var k :| AdminAt(members[1..], userId, k);
        assert AdminAt(members, userId, k + 1);
      }
      if exists k :: AdminAt(members, userId, k) {
        var k :| AdminAt(members, userId, k);
        if k > 0 {
          assert AdminAt(members[1..], userId, k - 1);
        }
      }
    }
  }

  /** Appending a member can only make its own user an admin; everyone else keeps their standing. */
  lemma IsAdminAppend(members: seq<Member>, m: Member, userId: string)
    ensures IsAdmin(members + [m], userId) <==> IsAdmin(members, userId) || (m.user.id == userId && m.role == "admin")
  {
    IsAdminIff(members + [m], userId);
    IsAdminIff(members, userId);
    if IsAdmin(members, userId) {
      var k :| AdminAt(members, userId, k);
      assert AdminAt(members + [m], userId, k);
    }
    if m.user.id == userId && m.role == "admin" {
      assert AdminAt(members + [m], userId, |members|);
    }
    if IsAdmin(members + [m], userId) {
      var k :| AdminAt(members + [m], userId, k);
      if k < |members| {
        assert AdminAt(members, userId, k);
      }
    }
  }

  const InviteFailedText := "Ошибка при приглашении"
  const InviteThrownText := "Произошла ошибка при приглашении"

  /** The members GET: the list of an ok reply, or nothing usable. */
  datatype MembersReply = MembersLoaded(members: seq<Member>) | MembersNotLoaded

  /** The invite POST: an ok reply carries the new member, a failed one its `error` text; or a thrown call. */
  datatype InviteReply = Invited(member: Member) | InviteRefused(error: Option<string>) | InviteThrown

  /** The status PUT: whether the reply was ok (a thrown call counts as not ok). */
  datatype StatusReply = StatusOk | StatusNotOk

  class Dialog {
    /** The signed-in user the dialog is shown to (the `userId` prop). */
    const userId: string
    var members: seq<Member>
    var projectStatus: string
    var inviteEmail: string
    var isInviting: bool
    var inviteError: string
    var isLoadingMembers: bool

    constructor (status: string, viewer: string)
      ensures userId == viewer
      ensures members == [] && projectStatus == status && inviteEmail == "" && !isInviting
      ensures inviteError == "" && isLoadingMembers
    {
      userId := viewer;
      members := [];
      projectStatus := status;
      inviteEmail := "";
      isInviting := false;
      inviteError := "";
      isLoadingMembers := true;
    }

    /** The open effect: the status shown is reset to the project's, and the member list is fetched. */
    method Open(projectStatusNow: string, reply: MembersReply)
      modifies this`projectStatus, this`members, this`isLoadingMembers
      ensures projectStatus == projectStatusNow && !isLoadingMembers
      ensures members == if reply.MembersLoaded? then reply.members else old(members)
    {
      projectStatus := projectStatusNow;
      if reply.MembersLoaded? {
        members := reply.members;
      }
      isLoadingMembers := false;
    }

    /**
     * `handleInvite`. A blank address sends nothing and changes nothing; any
     * other is sent trimmed. A new member is appended at the end, the existing
     * ones kept; a refusal keeps the list and shows the reply's text or the
     * default. `refresh` says whether `onUpdate` ran. The invite form is
     * rendered only for an admin.
     */
    method Invite(reply: InviteReply) returns (sentEmail: Option<string>, refresh: bool)
      requires IsAdmin(members, userId)
      modifies this`members, this`inviteEmail, this`isInviting, this`inviteError
      ensures IsBlank(old(inviteEmail)) ==>
                sentEmail.None? && !refresh && members == old(members) && inviteEmail == old(inviteEmail)
                && isInviting == old(isInviting) && inviteError == old(inviteError)
      ensures !IsBlank(old(inviteEmail)) ==> sentEmail == Some(Trim(old(inviteEmail))) && !isInviting
      ensures !IsBlank(old(inviteEmail)) && reply.Invited? ==>
                members == old(members) + [reply.member] && inviteEmail == "" && inviteError == "" && refresh
      ensures !IsBlank(old(inviteEmail)) && !reply.Invited? ==>
                members == old(members) && inviteEmail == old(inviteEmail) && !refresh
                && inviteError == (if reply.InviteRefused? then
                                     (if reply.error.Some? && reply.error.value != "" then reply.error.value
                                      else InviteFailedText)
                                   else InviteThrownText)
    {
      if IsBlank(inviteEmail) {
        return None, false;
      }
      isInviting := true;
      inviteError := "";
      sentEmail := Some(Trim(inviteEmail));
      refresh := false;
      match reply {
        case Invited(m) =>
          members := members + [m];
          inviteEmail := "";
          refresh := true;
        case InviteRefused(err) =>
          inviteError := if err.Some? && err.value != "" then err.value else InviteFailedText;
        case InviteThrown =>
          inviteError := InviteThrownText;
      }
      isInviting := false;
    }

    /**
     * `handleStatusChange`: the shown status becomes the requested one only
     * after an ok reply. The status select is rendered only for an admin.
     */
    method StatusChange(newStatus: string, reply: StatusReply) returns (refresh: bool)
      requires IsAdmin(members, userId)
      modifies this`projectStatus
      ensures reply == StatusOk ==> projectStatus == newStatus && refresh
      ensures reply == StatusNotOk ==> projectStatus == old(projectStatus) && !refresh
    {
      refresh := false;
      if reply == StatusOk {
        projectStatus := newStatus;
        refresh := true;
      }
    }
  }
}
