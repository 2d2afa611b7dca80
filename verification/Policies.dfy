/** The permission predicates of app/policies.py, one predicate per function. */
module Policies {
  import opened Wrappers

  type UserId = nat

  datatype Role = Owner | Admin | Member

  datatype Status = Todo | InProgress | Done

  predicate IsManager(role: Role) {
    role == Owner || role == Admin
  }

  predicate CanAddMember(actor: Role, requested: Role) {
    match actor
    case Owner => requested in {Admin, Member}
    case Admin => requested == Member
    case Member => false
  }

  predicate CanUpdateMemberRole(actor: Role, target: Role, requested: Role) {
    actor == Owner && target != Owner && requested in {Admin, Member}
  }

  predicate CanRemoveMember(actor: Role, target: Role) {
    if target == Owner then false
    else match actor
      case Owner => target in {Admin, Member}
      case Admin => target == Member
      case Member => false
  }

  predicate CanEditTask(actor: Role, actorId: UserId, creatorId: UserId) {
    IsManager(actor) || actorId == creatorId
  }

  predicate CanDeleteTask(actor: Role, actorId: UserId, creatorId: UserId) {
    CanEditTask(actor, actorId, creatorId)
  }

  predicate CanChangeTaskStatus(actor: Role, actorId: UserId, assignee: Option<UserId>) {
    IsManager(actor) || (actor == Member && assignee == Some(actorId))
  }

  predicate IsValidStatusTransition(actor: Role, current: Status, requested: Status) {
    if current == requested then true
    else if IsManager(actor) then true
    else (current, requested) in {(Todo, InProgress), (InProgress, Done)}
  }

  predicate CanChangeTaskAssignee(actor: Role) {
    IsManager(actor)
  }

  predicate CanSelfClaimTask(actor: Role, actorId: UserId, current: Option<UserId>, requested: Option<UserId>) {
    actor == Member && requested == Some(actorId) && current == None
  }

  predicate CanSelfReleaseTask(actor: Role, actorId: UserId, current: Option<UserId>, requested: Option<UserId>) {
    actor == Member && requested == None && current == Some(actorId)
  }
}
