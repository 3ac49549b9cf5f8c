/**
 * The dashboard page: it loads projects, tasks, users and the latest
 * activities, shows an alert if any request failed, and otherwise the
 * counters, one card per project and the activity feed.
 */
module DashboardContainer {
  import opened Wrappers
  import opened Seqs
  import opened Models
  import Tables
  import QuickStats
  import ProjectOverviewCard
  import ActivityFeed

  /** One query hook's `data`, `isLoading` and whether `error` is set. */
  datatype Query<T> = Query(data: Option<T>, isLoading: bool, failed: bool)

  /** `list || []`. */
  function ForDisplay<T>(list: Option<seq<T>>): (r: seq<T>)
    ensures list.None? ==> r == []
    ensures list.Some? ==> r == list.value
  {
    list.GetOr([])
  }

  function ProjectIdOf(p: Project): int
  {
    p.id
  }

  /**
   * `getTeamMembersForProject`: nothing for a project that is not in the
   * loaded list or before the users are loaded; otherwise the first five
   * users, whatever the project.
   */
  function TeamMembersForProject(projects: Option<seq<Project>>, users: Option<seq<User>>, projectId: int): (r: seq<User>)
    ensures projects.None? || users.None? ==> r == []
    ensures projects.Some? && !Tables.HasId(projects.value, ProjectIdOf, projectId) ==> r == []
    ensures projects.Some? && Tables.HasId(projects.value, ProjectIdOf, projectId) && users.Some? ==>
      r == Take(users.value, 5)
  {
    if projects.None? then []
    else
      var project := Tables.Find(projects.value, ProjectIdOf, projectId);
      if project.None? || users.None? then [] else Take(users.value, 5)
  }

  /** Every project of the list gets the same members. */
  lemma SameMembersForEveryProject(projects: seq<Project>, users: Option<seq<User>>, i: int, j: int)
    requires 0 <= i < |projects| && 0 <= j < |projects|
    ensures TeamMembersForProject(Some(projects), users, projects[i].id)
         == TeamMembersForProject(Some(projects), users, projects[j].id)
  {
    assert ProjectIdOf(projects[i]) == projects[i].id && ProjectIdOf(projects[j]) == projects[j].id;
  }

  datatype ProjectsPane = ProjectSkeletons | NoProjects | Cards(cards: seq<ProjectOverviewCard.Card>)

  datatype ActivityPane = ActivitySkeletons | Feed(recent: seq<Activity>, empty: bool)

  datatype Dashboard =
    | ErrorAlert
    | Overview(stats: seq<QuickStats.Stat>, statsLoading: bool, projectsPane: ProjectsPane, activityPane: ActivityPane)

  predicate HasErrors(projects: Query<seq<Project>>, tasks: Query<seq<Task>>, users: Query<seq<User>>,
                      activities: Query<seq<Activity>>)
  {
    projects.failed || tasks.failed || users.failed || activities.failed
  }

  function CardFor(projects: Option<seq<Project>>, tasks: seq<Task>, users: Option<seq<User>>): Project -> ProjectOverviewCard.Card
  {
    (p: Project) => ProjectOverviewCard.CardFor(p, tasks, TeamMembersForProject(projects, users, p.id))
  }

  /** The "Recent Projects" section. */
  function ProjectsPaneFor(projects: Query<seq<Project>>, tasks: seq<Task>, users: Option<seq<User>>): (r: ProjectsPane)
    ensures r.ProjectSkeletons? <==> projects.isLoading
    ensures r.NoProjects? <==> !projects.isLoading && ForDisplay(projects.data) == []
  {
    var ps := ForDisplay(projects.data);
    if projects.isLoading then ProjectSkeletons
    else if |ps| == 0 then NoProjects
    else Cards(Map(ps, CardFor(projects.data, tasks, users)))
  }

  /** The "Recent Activity" section. */
  function ActivityPaneFor(activities: Query<seq<Activity>>): (r: ActivityPane)
    ensures r.ActivitySkeletons? <==> activities.isLoading
  {
    if activities.isLoading then ActivitySkeletons
    else Feed(ActivityFeed.Recent(activities.data), ActivityFeed.IsEmpty(activities.data, activities.isLoading))
  }

  /** What `DashboardContainer` renders. */
  function Render(projects: Query<seq<Project>>, tasks: Query<seq<Task>>, users: Query<seq<User>>,
                  activities: Query<seq<Activity>>): (d: Dashboard)
    ensures d.ErrorAlert? <==> HasErrors(projects, tasks, users, activities)
    ensures d.Overview? ==>
      d.statsLoading == QuickStats.ShowsSkeletons(projects.isLoading, tasks.isLoading, users.isLoading)
      && d.projectsPane == ProjectsPaneFor(projects, ForDisplay(tasks.data), users.data)
      && d.activityPane == ActivityPaneFor(activities)
  {
    if HasErrors(projects, tasks, users, activities) then ErrorAlert
    else
      Overview(QuickStats.Stats(Some(ForDisplay(projects.data)), Some(ForDisplay(tasks.data)), Some(ForDisplay(users.data))),
               QuickStats.ShowsSkeletons(projects.isLoading, tasks.isLoading, users.isLoading),
               ProjectsPaneFor(projects, ForDisplay(tasks.data), users.data), ActivityPaneFor(activities))
  }

  /** The counters count the queries' lists, as if they were passed unchanged. */
  lemma StatsCountQueries(projects: Query<seq<Project>>, tasks: Query<seq<Task>>, users: Query<seq<User>>,
                          activities: Query<seq<Activity>>)
    requires !HasErrors(projects, tasks, users, activities)
    ensures Render(projects, tasks, users, activities).stats == QuickStats.Stats(projects.data, tasks.data, users.data)
  {
  }

  /** Three of the first five users are the first three. */
  lemma AvatarsOfFive(users: seq<User>)
    ensures ProjectOverviewCard.Avatars(Take(users, 5)) == Take(users, 3)
  {
  }

  /**
   * One card per loaded project, in order; each counts that project's
   * tasks and shows the first three users as avatars.
   */
  lemma CardsFollowProjects(projects: Query<seq<Project>>, tasks: seq<Task>, users: Option<seq<User>>)
    requires ProjectsPaneFor(projects, tasks, users).Cards?
    ensures var cards := ProjectsPaneFor(projects, tasks, users).cards;
      projects.data.Some? && |cards| == |projects.data.value| > 0
      && forall i :: 0 <= i < |cards| ==>
        cards[i].project == projects.data.value[i]
        && cards[i].taskCount == |ProjectOverviewCard.ProjectTasks(tasks, projects.data.value[i])|
        && cards[i].avatars == Take(ForDisplay(users), 3)
  {
    var ps := projects.data.value;
    var cards := ProjectsPaneFor(projects, tasks, users).cards;
    forall i | 0 <= i < |cards|
      ensures cards[i].avatars == Take(ForDisplay(users), 3)
    {
      assert cards[i] == CardFor(projects.data, tasks, users)(ps[i]);
      assert Tables.HasId(ps, ProjectIdOf, ps[i].id) by { assert ProjectIdOf(ps[i]) == ps[i].id; }
      if users.Some? { AvatarsOfFive(users.value); }
    }
  }

  /** The feed lists the first ten of the fetched activities. */
  lemma FeedShowsRecent(projects: Query<seq<Project>>, tasks: Query<seq<Task>>, users: Query<seq<User>>,
                        activities: Query<seq<Activity>>)
    requires !HasErrors(projects, tasks, users, activities) && !activities.isLoading
    ensures var d := Render(projects, tasks, users, activities);
      d.activityPane.Feed? && d.activityPane.recent == Take(ForDisplay(activities.data), 10)
      && (d.activityPane.empty <==> ForDisplay(activities.data) == [])
  {
    ActivityFeed.EmptyIffNothing(activities.data, false);
  }
}
