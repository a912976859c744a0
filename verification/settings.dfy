/** The tuning profile of one player class (`PlayerSettings`): only the fields the
    modelled bookkeeping reads. Values are fixed once a class is selected. */
module Settings {

  datatype PlayerSettings = PlayerSettings(
    baseSpeed: real,
    sprintSpeed: real,
    sprintStaminaDrain: real,
    friction: real,
    minJumpForce: real,
    maxJumpForce: real,
    timeToChargeMaxJump: real,
    jumpChargeStaminaDrain: real,
    jumpForwardBoost: real,
    coyoteTime: real,
    jumpBufferTime: real,
    maxStamina: real,
    staminaRecoveryRate: real,
    ballReloadTime: real,
    maxBallCount: int,
    hookPullDelay: real,
    hookPullPower: real,
    hookUpPower: real,
    kickDuration: real,
    kickCooldown: real,
    kickPower: real,
    shootCooldown: real,
    maxBallSpeed: real)

  /** The field initialisers of `PlayerSettings`. */
  const Defaults := PlayerSettings(
    baseSpeed := 20.0,
    sprintSpeed := 40.0,
    sprintStaminaDrain := 10.0,
    friction := 50.0,
    minJumpForce := 20.0,
    maxJumpForce := 140.0,
    timeToChargeMaxJump := 3.0,
    jumpChargeStaminaDrain := 30.0,
    jumpForwardBoost := 10.0,
    coyoteTime := 0.2,
    jumpBufferTime := 0.3,
    maxStamina := 100.0,
    staminaRecoveryRate := 5.0,
    ballReloadTime := 5.0,
    maxBallCount := 3,
    hookPullDelay := 0.4,
    hookPullPower := 40.0,
    hookUpPower := 20.0,
    kickDuration := 0.2,
    kickCooldown := 0.3,
    kickPower := 100.0,
    shootCooldown := 0.05,
    maxBallSpeed := 50.0)

  /** What the bookkeeping needs of a profile to be meaningful: positive charge
      time and pull delay, non-negative rates, ordered jump forces. */
  predicate Valid(s: PlayerSettings) {
    && s.timeToChargeMaxJump > 0.0
    && s.jumpChargeStaminaDrain >= 0.0
    && s.minJumpForce <= s.maxJumpForce
    && s.maxStamina >= 0.0
    && s.staminaRecoveryRate >= 0.0
    && s.jumpBufferTime >= 0.0
    && s.maxBallCount >= 0
    && s.hookPullDelay > 0.0
  }
}
