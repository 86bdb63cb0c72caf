/** Canary rollout: whether a feature enabled for a percentage of users is on for a user. */
module Canary {

  /** `is_user_in_canary_group`: a percentage outside 0..100 disables the feature, 100 and 0
      switch it on and off for everyone, and otherwise the user's bucket `user_id % 100` (the
      floor remainder, never negative) must lie below the percentage. */
  function IsUserInCanaryGroup(userId: int, featurePercentage: int): (r: bool)
    ensures !(0 <= featurePercentage <= 100) ==> !r
    ensures featurePercentage == 100 ==> r
    ensures featurePercentage == 0 ==> !r
  {
    if !(0 <= featurePercentage <= 100) then false
    else if featurePercentage == 100 then true
    else if featurePercentage == 0 then false
    else userId % 100 < featurePercentage
  }

  /** For every valid percentage, the special cases agree with the bucket rule: the users in
      the group are exactly those whose bucket is below the percentage. */
  lemma CanaryIsBucketBelow(userId: int, featurePercentage: int)
    requires 0 <= featurePercentage <= 100
    ensures IsUserInCanaryGroup(userId, featurePercentage) <==> userId % 100 < featurePercentage
  {
  }

  /** Raising the percentage never drops a user from the group. */
  lemma CanaryMonotone(userId: int, p: int, q: int)
    requires 0 <= p <= q <= 100
    ensures IsUserInCanaryGroup(userId, p) ==> IsUserInCanaryGroup(userId, q)
  {
    CanaryIsBucketBelow(userId, p);
    CanaryIsBucketBelow(userId, q);
  }

  /** Users a hundred ids apart share a bucket, so they are in or out together. */
  lemma CanaryPeriodic(userId: int, featurePercentage: int)
    ensures IsUserInCanaryGroup(userId + 100, featurePercentage) == IsUserInCanaryGroup(userId, featurePercentage)
  {
    assert (userId + 100) % 100 == userId % 100;
  }
}
