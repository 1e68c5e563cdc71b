/**
  The advertising store: when an interstitial, a rewarded or a banner ad may
  be shown, and the bookkeeping of the ads already shown. The current time
  in milliseconds is passed in by the caller wherever the store reads the
  clock.
*/
module Ads {

  /** Minimum time between two interstitial ads, in milliseconds (5 minutes). */
  const MinTimeBetweenInterstitials: int := 300000

  /** Rewarded ads are switched on. */
  const RewardedEnabled: bool := true

  /** The banner is shown on the game screen. */
  const BannerShowInGame: bool := true

  class AdStore {
    var lastInterstitialShown: int
    var lastRewardedShown: int
    var isInterstitialReady: bool
    var isRewardedReady: bool
    var isBannerReady: bool
    var totalInterstitialsShown: nat
    var totalRewardedsShown: nat
    var totalBannersShown: nat
    var isAdShowing: bool

    /** The initial state: nothing shown, nothing loaded, no ad open. */
    constructor()
      ensures lastInterstitialShown == 0 && lastRewardedShown == 0
      ensures !isInterstitialReady && !isRewardedReady && !isBannerReady
      ensures totalInterstitialsShown == 0 && totalRewardedsShown == 0 && totalBannersShown == 0
      ensures !isAdShowing
    {
      lastInterstitialShown := 0;
      lastRewardedShown := 0;
      isInterstitialReady := false;
      isRewardedReady := false;
      isBannerReady := false;
      totalInterstitialsShown := 0;
      totalRewardedsShown := 0;
      totalBannersShown := 0;
      isAdShowing := false;
    }

    /** An interstitial may be shown at time `now`: the spacing has elapsed and one is loaded. */
    function CanShowInterstitial(now: int): (ok: bool)
      reads this
      ensures ok ==> isInterstitialReady
      ensures ok ==> now >= lastInterstitialShown + MinTimeBetweenInterstitials
      ensures isInterstitialReady && now - lastInterstitialShown >= MinTimeBetweenInterstitials ==> ok
    {
      if now - lastInterstitialShown < MinTimeBetweenInterstitials then false
      else if !isInterstitialReady then false
      else true
    }

    /** A rewarded ad may be shown: rewarded ads are on and one is loaded. */
    function CanShowRewarded(): (ok: bool)
      reads this
      ensures ok <==> isRewardedReady
    {
      if !RewardedEnabled then false
      else if !isRewardedReady then false
      else true
    }

    /** The banner may be shown: banners are on in the game and one is loaded. */
    function CanShowBanner(): (ok: bool)
      reads this
      ensures ok <==> isBannerReady
    {
      BannerShowInGame && isBannerReady
    }

    /**
      Record an interstitial shown at `now`: the spacing restarts from
      `now`, the count goes up and a new ad has to be loaded.
    */
    method MarkInterstitialShown(now: int)
      modifies this
      ensures lastInterstitialShown == now
      ensures totalInterstitialsShown == old(totalInterstitialsShown) + 1
      ensures !isInterstitialReady
      ensures forall t :: t < now + MinTimeBetweenInterstitials ==> !CanShowInterstitial(t)
      ensures lastRewardedShown == old(lastRewardedShown) && isRewardedReady == old(isRewardedReady)
      ensures isBannerReady == old(isBannerReady) && isAdShowing == old(isAdShowing)
      ensures totalRewardedsShown == old(totalRewardedsShown) && totalBannersShown == old(totalBannersShown)
    {
      lastInterstitialShown := now;
      totalInterstitialsShown := totalInterstitialsShown + 1;
      isInterstitialReady := false;
    }

    method SetInterstitialReady(ready: bool)
      modifies this
      ensures isInterstitialReady == ready
      ensures lastInterstitialShown == old(lastInterstitialShown) && lastRewardedShown == old(lastRewardedShown)
      ensures isRewardedReady == old(isRewardedReady) && isBannerReady == old(isBannerReady)
      ensures totalInterstitialsShown == old(totalInterstitialsShown) && totalRewardedsShown == old(totalRewardedsShown)
      ensures totalBannersShown == old(totalBannersShown) && isAdShowing == old(isAdShowing)
    {
      isInterstitialReady := ready;
    }

    /** Record a rewarded ad shown at `now`: the count goes up and a new ad has to be loaded. */
    method MarkRewardedShown(now: int)
      modifies this
      ensures lastRewardedShown == now
      ensures totalRewardedsShown == old(totalRewardedsShown) + 1
      ensures !isRewardedReady && !CanShowRewarded()
      ensures lastInterstitialShown == old(lastInterstitialShown) && isInterstitialReady == old(isInterstitialReady)
      ensures isBannerReady == old(isBannerReady) && isAdShowing == old(isAdShowing)
      ensures totalInterstitialsShown == old(totalInterstitialsShown) && totalBannersShown == old(totalBannersShown)
    {
      lastRewardedShown := now;
      totalRewardedsShown := totalRewardedsShown + 1;
      isRewardedReady := false;
    }

    method SetRewardedReady(ready: bool)
      modifies this
      ensures isRewardedReady == ready
      ensures lastInterstitialShown == old(lastInterstitialShown) && lastRewardedShown == old(lastRewardedShown)
      ensures isInterstitialReady == old(isInterstitialReady) && isBannerReady == old(isBannerReady)
      ensures totalInterstitialsShown == old(totalInterstitialsShown) && totalRewardedsShown == old(totalRewardedsShown)
      ensures totalBannersShown == old(totalBannersShown) && isAdShowing == old(isAdShowing)
    {
      isRewardedReady := ready;
    }

    method SetBannerReady(ready: bool)
      modifies this
      ensures isBannerReady == ready
      ensures lastInterstitialShown == old(lastInterstitialShown) && lastRewardedShown == old(lastRewardedShown)
      ensures isInterstitialReady == old(isInterstitialReady) && isRewardedReady == old(isRewardedReady)
      ensures totalInterstitialsShown == old(totalInterstitialsShown) && totalRewardedsShown == old(totalRewardedsShown)
      ensures totalBannersShown == old(totalBannersShown) && isAdShowing == old(isAdShowing)
    {
      isBannerReady := ready;
    }

    /**
      On the first run (no interstitial ever recorded) start the spacing
      clock at `now`, so that no interstitial appears in the first five
      minutes; otherwise leave the recorded time alone.
    */
    method InitializeAdTimer(now: int)
      modifies this
      ensures old(lastInterstitialShown) == 0 ==> lastInterstitialShown == now
      ensures old(lastInterstitialShown) != 0 ==> lastInterstitialShown == old(lastInterstitialShown)
      ensures old(lastInterstitialShown) == 0 ==>
                forall t :: t < now + MinTimeBetweenInterstitials ==> !CanShowInterstitial(t)
      ensures lastRewardedShown == old(lastRewardedShown)
      ensures isInterstitialReady == old(isInterstitialReady) && isRewardedReady == old(isRewardedReady)
      ensures isBannerReady == old(isBannerReady) && isAdShowing == old(isAdShowing)
      ensures totalInterstitialsShown == old(totalInterstitialsShown) && totalRewardedsShown == old(totalRewardedsShown)
      ensures totalBannersShown == old(totalBannersShown)
    {
      if lastInterstitialShown == 0 {
        lastInterstitialShown := now;
      }
    }

    /** Record whether a full-screen ad is open. */
    method SetAdShowing(showing: bool)
      modifies this
      ensures isAdShowing == showing
      ensures lastInterstitialShown == old(lastInterstitialShown) && lastRewardedShown == old(lastRewardedShown)
      ensures isInterstitialReady == old(isInterstitialReady) && isRewardedReady == old(isRewardedReady)
      ensures isBannerReady == old(isBannerReady)
      ensures totalInterstitialsShown == old(totalInterstitialsShown) && totalRewardedsShown == old(totalRewardedsShown)
      ensures totalBannersShown == old(totalBannersShown)
    {
      isAdShowing := showing;
    }
  }

  /**
    Interstitial spacing: whatever the loading state, no interstitial may be
    shown earlier than MinTimeBetweenInterstitials after the last one.
  */
  lemma InterstitialSpacing(s: AdStore, now: int)
    requires now < s.lastInterstitialShown + MinTimeBetweenInterstitials
    ensures !s.CanShowInterstitial(now)
  {
  }

  /** Once the spacing has elapsed, loading an ad is all an interstitial waits for. */
  lemma InterstitialAfterSpacing(s: AdStore, now: int)
    requires now >= s.lastInterstitialShown + MinTimeBetweenInterstitials
    ensures s.CanShowInterstitial(now) <==> s.isInterstitialReady
  {
  }

  /** A later time never turns a permitted interstitial into a refused one. */
  lemma InterstitialPermissionPersists(s: AdStore, now: int, later: int)
    requires now <= later && s.CanShowInterstitial(now)
    ensures s.CanShowInterstitial(later)
  {
  }

  // ---------------------------------------------------------------------
  // Scenarios on fresh stores
  // ---------------------------------------------------------------------

  /** A first timer start at 1000000 records 1000000. */
  method TimerStartsAtNow() returns (recorded: int)
    ensures recorded == 1000000
  {
    var s := new AdStore();
    s.InitializeAdTimer(1000000);
    recorded := s.lastInterstitialShown;
  }

  /** A timer already at 5000 stays at 5000 when started again at 1000000. */
  method TimerKeepsRecordedTime() returns (recorded: int)
    ensures recorded == 5000
  {
    var s := new AdStore();
    s.lastInterstitialShown := 5000;
    s.InitializeAdTimer(1000000);
    recorded := s.lastInterstitialShown;
  }

  /**
    The three interstitial cases at time `now`: spacing met but no ad
    loaded, ad loaded but just shown, ad loaded and spacing exceeded.
  */
  method InterstitialCases(now: int) returns (notLoaded: bool, tooSoon: bool, allowed: bool)
    ensures !notLoaded && !tooSoon && allowed
  {
    var s := new AdStore();
    s.lastInterstitialShown := now - MinTimeBetweenInterstitials - 1000;
    notLoaded := s.CanShowInterstitial(now);
    s.lastInterstitialShown := now;
    s.SetInterstitialReady(true);
    tooSoon := s.CanShowInterstitial(now);
    s.lastInterstitialShown := now - MinTimeBetweenInterstitials - 100;
    allowed := s.CanShowInterstitial(now);
  }

  /** Showing a loaded interstitial at 123456789 after five earlier ones records the time, unloads it and counts six. */
  method MarkShownScenario() returns (at: int, ready: bool, total: nat)
    ensures at == 123456789 && !ready && total == 6
  {
    var s := new AdStore();
    s.totalInterstitialsShown := 5;
    s.SetInterstitialReady(true);
    s.MarkInterstitialShown(123456789);
    at, ready, total := s.lastInterstitialShown, s.isInterstitialReady, s.totalInterstitialsShown;
  }
}
