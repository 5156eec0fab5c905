/**
 * The profile page (src/components/user/UserProfile.tsx): the role badge, the statistics it starts
 * with, and rendering nothing without a user.
 */
module UserProfile {
  import opened Wrappers
  import opened Dtos

  /** The badge styles the page uses. */
  datatype BadgeVariant = Destructive | DefaultVariant | Secondary

  /** The badge for a role as the page receives it, a string; anything unrecognised is secondary. */
  function RoleBadgeVariant(role: string): (v: BadgeVariant)
    ensures v == Destructive <==> role == "ADMIN"
    ensures v == DefaultVariant <==> role == "INSTRUCTOR"
    ensures v == Secondary <==> role != "ADMIN" && role != "INSTRUCTOR"
  {
    if role == "ADMIN" then Destructive
    else if role == "INSTRUCTOR" then DefaultVariant
    else Secondary
  }

  /** Each of the three roles gets its own badge. */
  lemma BadgeOfEachRole()
    ensures RoleBadgeVariant(RoleName(Admin)) == Destructive
    ensures RoleBadgeVariant(RoleName(Instructor)) == DefaultVariant
    ensures RoleBadgeVariant(RoleName(Student)) == Secondary
  {
  }

  datatype Stats = Stats(enrolledCourses: nat, completedCourses: nat, certificates: nat)

  /** The page state: its statistics and whether they are still loading. */
  datatype State = State(stats: Stats, isLoading: bool)

  /** Statistics start at zero and loading. */
  const Initial := State(Stats(0, 0, 0), true)

  /** What the page renders: nothing, or the card for a user. */
  datatype View = Nothing | Card(fullName: string, email: string, roleLabel: string, badge: BadgeVariant, stats: Stats, activityLoading: bool)

  function Render(user: Option<UserDto>, s: State): (v: View)
    ensures v.Nothing? <==> user.None?
    ensures v.Card? ==>
              v.badge == RoleBadgeVariant(RoleName(user.value.role)) &&
              v.roleLabel == RoleName(user.value.role) &&
              v.email == user.value.email && v.stats == s.stats && v.activityLoading == s.isLoading
  {
    match user
    case None => Nothing
    case Some(u) =>
      Card(u.firstName + " " + u.lastName, u.email, RoleName(u.role), RoleBadgeVariant(RoleName(u.role)), s.stats, s.isLoading)
  }

  /** Before the statistics arrive a user's card shows zeros and the activity placeholder. */
  lemma FirstRender(u: UserDto)
    ensures var v := Render(Some(u), Initial);
      v.Card? && v.stats == Stats(0, 0, 0) && v.activityLoading
  {
  }
}
