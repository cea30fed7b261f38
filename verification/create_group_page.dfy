/**
 * The three-step create-group wizard: name and description, then the member
 * list, then a review before the request is sent.
 */
module CreateGroupPage {
  import opened Wrappers
  import opened Text
  import opened Records
  import opened GroupController
  import opened MemberLists

  class GroupWizard {
    var step: int
    var groupName: string
    var description: string
    var members: seq<Email>
    var memberEmail: string

    /**
     * The step stays in 1..3, the list never holds an email twice nor an
     * empty one, and past the first step the name is not blank.
     */
    ghost predicate Valid()
      reads this
    {
      && 1 <= step <= 3
      && Distinct(members)
      && MembersWellFormed(members)
      && (step >= 2 ==> Trim(groupName) != "")
    }

    constructor ()
      ensures Valid()
      ensures step == 1 && groupName == "" && description == "" && members == [] && memberEmail == ""
    {
      step, groupName, description, members, memberEmail := 1, "", "", [], "";
    }

    /** Typing into the name or description field, which the first step shows. */
    method EditDetails(name: string, desc: string)
      requires Valid() && step == 1
      modifies this
      ensures Valid()
      ensures groupName == name && description == desc
      ensures step == old(step) && members == old(members) && memberEmail == old(memberEmail)
    {
      groupName, description := name, desc;
    }

    /** Typing into the member email field. */
    method EditMemberEmail(email: string)
      requires Valid()
      modifies this
      ensures Valid()
      ensures memberEmail == email
      ensures step == old(step) && groupName == old(groupName) && description == old(description)
      ensures members == old(members)
    {
      memberEmail := email;
    }

    /**
     * `addMember`: the trimmed email is appended, and the field cleared,
     * exactly when it is non-empty and not yet listed; otherwise nothing changes.
     */
    method AddMember() returns (added: bool)
      requires Valid()
      modifies this
      ensures Valid()
      ensures var t := Trim(old(memberEmail));
              && (added <==> t != "" && t !in old(members))
              && (added ==> members == old(members) + [t] && memberEmail == "")
              && (!added ==> members == old(members) && memberEmail == old(memberEmail))
      ensures step == old(step) && groupName == old(groupName) && description == old(description)
    {
      var t := Trim(memberEmail);
      if t != "" && t !in members {
        members := members + [t];
        memberEmail := "";
        added := true;
      } else {
        added := false;
      }
    }

    /** `removeMember`: every copy of the email goes, the rest keep their order. */
    method RemoveMember(email: Email)
      requires Valid()
      modifies this
      ensures Valid()
      ensures members == Without(old(members), email)
      ensures email !in members && |members| == |old(members)| - (if email in old(members) then 1 else 0)
      ensures step == old(step) && groupName == old(groupName) && description == old(description)
      ensures memberEmail == old(memberEmail)
    {
      CountWithout(members, email);
      var kept := Without(members, email);
      assert forall i :: 0 <= i < |kept| ==> kept[i] in members;
      members := kept;
    }

    /** `handleNext`: 1 → 2 only with a non-blank name, 2 → 3 always, 3 stays. */
    method Next()
      requires Valid()
      modifies this
      ensures Valid()
      ensures step == (if old(step) == 1 && Trim(groupName) != "" then 2
                       else if old(step) == 2 then 3
                       else old(step))
      ensures groupName == old(groupName) && description == old(description)
      ensures members == old(members) && memberEmail == old(memberEmail)
    {
      if step == 1 && Trim(groupName) != "" {
        step := 2;
      } else if step == 1 {
        // the name is required: stay on the first step
      } else if step == 2 {
        step := 3;
      }
    }

    /** The back button: one step back, or leave the page from the first step. */
    method Back() returns (leave: bool)
      requires Valid()
      modifies this
      ensures Valid()
      ensures leave <==> old(step) == 1
      ensures step == if old(step) > 1 then old(step) - 1 else old(step)
      ensures groupName == old(groupName) && description == old(description)
      ensures members == old(members) && memberEmail == old(memberEmail)
    {
      if step > 1 {
        step := step - 1;
        leave := false;
      } else {
        leave := true;
      }
    }

    /** The body `handleSubmit` posts. */
    function Request(): (r: GroupRequest)
      reads this
      ensures r.name == groupName && r.description == Some(description) && r.members == Some(members)
    {
      GroupRequest(groupName, Some(description), Some(members))
    }
  }

  /** In a list without repeats, removing a listed email shortens it by one. */
  lemma {:induction false} CountWithout(s: seq<Email>, x: Email)
    requires Distinct(s)
    ensures |Without(s, x)| == |s| - (if x in s then 1 else 0)
  {
    if s != [] {
      assert Distinct(s[1..]) by {
        forall i, j | 0 <= i < j < |s| - 1 ensures s[1..][i] != s[1..][j] {
          assert s[1..][i] == s[i + 1] && s[1..][j] == s[j + 1];
        }
      }
      CountWithout(s[1..], x);
      if s[0] == x {
        assert x !in s[1..] by {
          forall j | 1 <= j < |s| ensures s[j] != x {
          }
        }
      }
    }
  }

  /** A blank-free name is non-empty. */
  lemma NonBlankIsNonEmpty(s: string)
    requires Trim(s) != ""
    ensures s != ""
  {
    TrimEmptyIffBlank(s);
  }

  /**
   * From the review step, a wizard with at least one member sends a request
   * the server's create-group checks accept: the name and members are present
   * and no member is empty, with the creator (whose email is non-empty) added.
   */
  lemma WizardRequestAccepted(w: GroupWizard, creator: Email)
    requires w.Valid() && w.step == 3 && |w.members| > 0 && creator != ""
    ensures GroupFieldsPresent(w.Request())
    ensures MembersWellFormed(WithCreator(w.Request().members.value, creator))
  {
    NonBlankIsNonEmpty(w.groupName);
  }

  /** A wizard that reaches the review step with no member sends a request the server refuses. */
  lemma EmptyWizardRefused(w: GroupWizard)
    requires w.Valid() && w.members == []
    ensures !GroupFieldsPresent(w.Request())
  {
  }
}
